/** The payment table and the outbox table, changed together inside one transaction. */
module Repository {
  import opened Domain

  datatype Row = Row(payment: Payment, status: Status, expiresAt: Option<int>)

  /** `from` is what the code writes, not the true previous status; see `EventFrom`. */
  datatype Event = Event(payment: PaymentId, from: Option<Status>, to: Status)

  datatype OutboxRow = OutboxRow(event: Event, published: bool)

  /**
   * The two tables, plus the committed status history of every payment.
   * The history is for specification only: no operation looks at it.
   */
  datatype Tables = Tables(
    payments: map<PaymentId, Row>,
    outbox: seq<OutboxRow>,
    history: map<PaymentId, seq<Status>>)
  {
    predicate Valid() {
      && payments.Keys == history.Keys
      && forall id :: id in payments ==>
          && payments[id].payment.id == id
          && history[id] != []
          && payments[id].status == history[id][|history[id]| - 1]
    }
  }

  datatype Change =
    | CreateRow(payment: Payment, initial: Status)
    | CreateWithEvent(payment: Payment, initial: Status)
    | UpdateStatus(id: PaymentId, to: Status)
    | MarkReserved(id: PaymentId, now: int, ttl: int)
    | UpdateRoute(id: PaymentId)
  {
    function Target(): PaymentId {
      if CreateRow? || CreateWithEvent? then payment.id else id
    }

    /** The status the change gives to its row. */
    function NewStatus(): Status {
      match this
      case CreateRow(_, s) => s
      case CreateWithEvent(_, s) => s
      case UpdateStatus(_, s) => s
      case MarkReserved(_, _, _) => Reserved
      case UpdateRoute(_) => Routed
    }
  }

  /** Primary key, and the UNIQUE (source_bic, end_to_end_id) constraint. */
  predicate Insertable(t: Tables, p: Payment) {
    && p.id !in t.payments
    && forall id :: id in t.payments ==>
        !(t.payments[id].payment.sourceBIC == p.sourceBIC && t.payments[id].payment.endToEndId == p.endToEndId)
  }

  /** Whether the database accepts the change; an update of the route of a missing row is not an error. */
  predicate Accepts(t: Tables, c: Change) {
    match c
    case CreateRow(p, _) => Insertable(t, p)
    case CreateWithEvent(p, _) => Insertable(t, p)
    case UpdateRoute(_) => true
    case _ => c.Target() in t.payments
  }

  /** UPDATE ... RETURNING yields the new status, and a reservation always claims to come from VALIDATED. */
  function EventFrom(c: Change): Option<Status> {
    match c
    case UpdateStatus(_, to) => Some(to)
    case MarkReserved(_, _, _) => Some(Validated)
    case _ => None
  }

  /** The event a change writes; a creation announces RECEIVED whatever the row says. */
  function EventOf(c: Change): Option<Event> {
    match c
    case CreateRow(_, _) => None
    case UpdateRoute(_) => None
    case CreateWithEvent(p, _) => Some(Event(p.id, None, Received))
    case _ => Some(Event(c.Target(), EventFrom(c), c.NewStatus()))
  }

  function NewRow(t: Tables, c: Change): Row
    requires Accepts(t, c)
    requires c.UpdateRoute? ==> c.id in t.payments
  {
    match c
    case CreateRow(p, s) => Row(p, s, None)
    case CreateWithEvent(p, s) => Row(p, s, None)
    case MarkReserved(id, now, ttl) => Row(t.payments[id].payment, Reserved, Some(now + ttl))
    case _ => t.payments[c.Target()].(status := c.NewStatus())
  }

  function HistoryOf(t: Tables, id: PaymentId): seq<Status> {
    if id in t.history then t.history[id] else []
  }

  /** The tables after an accepted change has been committed. */
  function Commit(t: Tables, c: Change): Tables
    requires Accepts(t, c)
  {
    if c.UpdateRoute? && c.id !in t.payments then t
    else
      var id := c.Target();
      Tables(t.payments[id := NewRow(t, c)],
             match EventOf(c) case None => t.outbox case Some(e) => t.outbox + [OutboxRow(e, false)],
             t.history[id := HistoryOf(t, id) + [c.NewStatus()]])
  }

  /** A change that fails anywhere is rolled back, row and event together. */
  function Transact(t: Tables, c: Change, healthy: bool): Tables {
    if healthy && Accepts(t, c) then Commit(t, c) else t
  }

  predicate Expired(r: Row, before: int) {
    r.status == Reserved && r.expiresAt.Some? && r.expiresAt.value < before
  }

  // ------------------------------------------------------------ one payment's events

  function EventsOf(outbox: seq<OutboxRow>, id: PaymentId): seq<Status> {
    if outbox == [] then []
    else
      var last, rest := outbox[|outbox| - 1].event, EventsOf(outbox[..|outbox| - 1], id);
      if last.payment == id then rest + [last.to] else rest
  }

  function WithoutRouted(h: seq<Status>): seq<Status> {
    if h == [] then []
    else
      var last, rest := h[|h| - 1], WithoutRouted(h[..|h| - 1]);
      if last.Routed? then rest else rest + [last]
  }

  /** The events of `id` are its committed statuses, except ROUTED, in order. */
  ghost predicate Announced(t: Tables, id: PaymentId) {
    EventsOf(t.outbox, id) == WithoutRouted(HistoryOf(t, id))
  }

  /** The changes the gateway makes: it creates payments as RECEIVED and routes them with UpdateRoute. */
  predicate Announceable(c: Change) {
    match c
    case CreateRow(_, _) => false
    case CreateWithEvent(_, initial) => initial == Received
    case UpdateStatus(_, to) => to != Routed
    case _ => true
  }

  lemma {:induction false} EventsOfAppend(outbox: seq<OutboxRow>, r: OutboxRow, id: PaymentId)
    ensures EventsOf(outbox + [r], id)
         == if r.event.payment == id then EventsOf(outbox, id) + [r.event.to] else EventsOf(outbox, id)
  {
    assert (outbox + [r])[..|outbox|] == outbox;
  }

  lemma {:induction false} WithoutRoutedAppend(h: seq<Status>, s: Status)
    ensures WithoutRouted(h + [s]) == if s.Routed? then WithoutRouted(h) else WithoutRouted(h) + [s]
  {
    assert (h + [s])[..|h|] == h;
  }

  /** What one committed change adds to the events of `id`. */
  lemma {:induction false} CommitAppendsEvent(t: Tables, c: Change, id: PaymentId)
    requires Accepts(t, c) && !(c.UpdateRoute? && c.id !in t.payments)
    ensures EventsOf(Commit(t, c).outbox, id)
         == if EventOf(c).Some? && c.Target() == id then EventsOf(t.outbox, id) + [EventOf(c).value.to]
            else EventsOf(t.outbox, id)
  {
    if EventOf(c).Some? {
      EventsOfAppend(t.outbox, OutboxRow(EventOf(c).value, false), id);
    }
  }

  /** No transaction breaks the tables, whether it commits or not. */
  lemma TransactKeepsValid(t: Tables, c: Change, healthy: bool)
    requires t.Valid()
    ensures Transact(t, c, healthy).Valid()
  {
  }

  /** An update of an existing payment extends its own history and leaves every other one alone. */
  lemma UpdateExtendsHistory(t: Tables, c: Change, healthy: bool)
    requires t.Valid() && !c.CreateRow? && !c.CreateWithEvent? && c.id in t.payments
    ensures var t' := Transact(t, c, healthy);
            && Accepts(t, c)
            && t'.payments.Keys == t.payments.Keys
            && HistoryOf(t', c.id) == (if healthy then HistoryOf(t, c.id) + [c.NewStatus()] else HistoryOf(t, c.id))
            && (forall id :: id != c.id ==> HistoryOf(t', id) == HistoryOf(t, id))
            && (forall id :: id in t.payments && id != c.id ==> t'.payments[id] == t.payments[id])
            && (forall id :: id in t.payments ==> t'.payments[id].payment == t.payments[id].payment)
  {
  }

  /** A status update leaves every other row, and all immutable fields and expiry times, as they were. */
  lemma StatusUpdateRows(t: Tables, id: PaymentId, to: Status, healthy: bool)
    requires t.Valid() && id in t.payments
    ensures var t' := Transact(t, UpdateStatus(id, to), healthy);
            && t'.Valid()
            && t'.payments == if healthy then t.payments[id := t.payments[id].(status := to)] else t.payments
  {
    TransactKeepsValid(t, UpdateStatus(id, to), healthy);
  }

  /**
   * The atomicity promise: provided `id` enters the table through CreateWithEvent as RECEIVED and
   * ROUTED is only written by UpdateRoute, every transaction keeps its events equal to its committed
   * statuses without ROUTED.
   */
  lemma TransactKeepsAnnounced(t: Tables, c: Change, healthy: bool, id: PaymentId)
    requires t.Valid() && Announced(t, id)
    requires c.Target() == id ==> Announceable(c)
    ensures Announced(Transact(t, c, healthy), id)
  {
    if healthy && Accepts(t, c) && !(c.UpdateRoute? && c.id !in t.payments) {
      var t' := Commit(t, c);
      CommitAppendsEvent(t, c, id);
      if c.Target() == id {
        assert HistoryOf(t', id) == HistoryOf(t, id) + [c.NewStatus()];
        WithoutRoutedAppend(HistoryOf(t, id), c.NewStatus());
      } else {
        assert HistoryOf(t', id) == HistoryOf(t, id);
      }
    }
  }

  /** The latest event of an announced payment is its current status, unless that is ROUTED. */
  lemma {:induction false} LatestEventIsStatus(t: Tables, id: PaymentId)
    requires t.Valid() && Announced(t, id)
    requires id in t.payments && !t.payments[id].status.Routed?
    ensures var events := EventsOf(t.outbox, id);
            events != [] && events[|events| - 1] == t.payments[id].status
  {
    var h := t.history[id];
    assert h == h[..|h| - 1] + [h[|h| - 1]];
    WithoutRoutedAppend(h[..|h| - 1], h[|h| - 1]);
  }

  /** Created in any other status, a payment is announced wrongly from the start: the condition is needed. */
  lemma WrongInitialStatusMisannounces(p: Payment, initial: Status)
    requires initial != Received
    ensures var t := Transact(Tables(map[], [], map[]), CreateWithEvent(p, initial), true);
            t.Valid() && !Announced(t, p.id) && EventsOf(t.outbox, p.id) != [t.payments[p.id].status]
  {
    var t := Transact(Tables(map[], [], map[]), CreateWithEvent(p, initial), true);
    EventsOfAppend([], OutboxRow(Event(p.id, None, Received), false), p.id);
    WithoutRoutedAppend([], initial);
    assert EventsOf(t.outbox, p.id) == [Received];
  }

  // ------------------------------------------------------------ one payment per instruction

  /** Any transactions in any order, each healthy or not. */
  function TransactAll(t: Tables, changes: seq<(Change, bool)>): Tables {
    if changes == [] then t
    else
      var n := |changes| - 1;
      Transact(TransactAll(t, changes[..n]), changes[n].0, changes[n].1)
  }

  /** Two payments of one bank with the same end-to-end id are the same instruction. */
  predicate SameInstruction(p: Payment, q: Payment) {
    p.sourceBIC == q.sourceBIC && p.endToEndId == q.endToEndId
  }

  predicate OneRowEach(t: Tables) {
    forall a, b :: a in t.payments && b in t.payments && a != b ==>
      !SameInstruction(t.payments[a].payment, t.payments[b].payment)
  }

  /** A creation is announced for rows of the table only, and once for each. */
  predicate OneCreationEach(t: Tables) {
    && (forall i :: 0 <= i < |t.outbox| && t.outbox[i].event.from.None? ==> t.outbox[i].event.payment in t.payments)
    && (forall i, j :: 0 <= i < j < |t.outbox| && t.outbox[i].event.from.None? && t.outbox[j].event.from.None? ==>
          t.outbox[i].event.payment != t.outbox[j].event.payment)
  }

  lemma TransactKeepsOneRowEach(t: Tables, c: Change, healthy: bool)
    requires t.Valid() && OneRowEach(t)
    ensures OneRowEach(Transact(t, c, healthy))
  {
  }

  /** Only the creation of a new row writes an event without an origin. */
  lemma CreationIsNew(t: Tables, c: Change)
    requires Accepts(t, c) && EventOf(c).Some? && EventOf(c).value.from.None?
    ensures EventOf(c).value.payment == c.Target() && c.Target() !in t.payments
  {
  }

  lemma TransactKeepsOneCreationEach(t: Tables, c: Change, healthy: bool)
    requires OneCreationEach(t)
    ensures OneCreationEach(Transact(t, c, healthy))
  {
    var t' := Transact(t, c, healthy);
    if t' != t && EventOf(c).Some? {
      assert t'.outbox == t.outbox + [OutboxRow(EventOf(c).value, false)];
      if EventOf(c).value.from.None? {
        CreationIsNew(t, c);
      }
    }
  }

  lemma {:induction false} TransactAllKeeps(changes: seq<(Change, bool)>)
    ensures var t := TransactAll(Tables(map[], [], map[]), changes);
            t.Valid() && OneRowEach(t) && OneCreationEach(t)
    decreases |changes|
  {
    if changes != [] {
      var n := |changes| - 1;
      var before := TransactAll(Tables(map[], [], map[]), changes[..n]);
      TransactAllKeeps(changes[..n]);
      TransactKeepsValid(before, changes[n].0, changes[n].1);
      TransactKeepsOneRowEach(before, changes[n].0, changes[n].1);
      TransactKeepsOneCreationEach(before, changes[n].0, changes[n].1);
    }
  }

  /** The row of `id` belongs to the instruction of p. */
  predicate IsRowOf(t: Tables, id: PaymentId, p: Payment) {
    id in t.payments && SameInstruction(t.payments[id].payment, p)
  }

  /** Row i of the outbox announces the creation of the instruction of p. */
  predicate Creates(t: Tables, i: nat, p: Payment) {
    i < |t.outbox| && t.outbox[i].event.from.None? && IsRowOf(t, t.outbox[i].event.payment, p)
  }

  /**
   * An instruction that is sent again has at most one payment and at most one creation event: over every
   * sequence of transactions, healthy or not, no two rows have the same source bank and end-to-end id, and no
   * two creation events are of payments that do.
   */
  lemma {:induction false} OnePaymentPerInstruction(changes: seq<(Change, bool)>, p: Payment)
    ensures var t := TransactAll(Tables(map[], [], map[]), changes);
            && (forall a, b :: IsRowOf(t, a, p) && IsRowOf(t, b, p) ==> a == b)
            && (forall i: nat, j: nat :: Creates(t, i, p) && Creates(t, j, p) ==> i == j)
  {
    TransactAllKeeps(changes);
    var t := TransactAll(Tables(map[], [], map[]), changes);
    forall a, b | IsRowOf(t, a, p) && IsRowOf(t, b, p)
      ensures a == b
    {
      assert SameInstruction(t.payments[a].payment, t.payments[b].payment);
    }
  }

  /** And one that is new is accepted: only a taken id or a repeated instruction is refused. */
  lemma NewInstructionIsAccepted(t: Tables, p: Payment, initial: Status)
    ensures var t' := Transact(t, CreateWithEvent(p, initial), true);
            if p.id !in t.payments && forall id :: id in t.payments ==> !SameInstruction(t.payments[id].payment, p)
            then t'.payments == t.payments[p.id := Row(p, initial, None)] && |t'.outbox| == |t.outbox| + 1
            else t' == t
  {
  }

  // ------------------------------------------------------------ the repository object

  /** The database calls inside one transaction that can fail. */
  datatype Stage = Begin | Statement | ReadFields | WriteEvent | CommitTx

  class PaymentRepo {
    var payments: map<PaymentId, Row>
    var outbox: seq<OutboxRow>
    ghost var history: map<PaymentId, seq<Status>>

    ghost function Contents(): Tables
      reads this
    {
      Tables(payments, outbox, history)
    }

    constructor ()
      ensures Contents() == Tables(map[], [], map[]) && Contents().Valid()
    {
      payments, outbox, history := map[], [], map[];
    }

    method CreateWithEvent(p: Payment, initial: Status, faults: set<Stage>) returns (ok: bool)
      modifies this
      ensures ok <==>
                && faults !! {Begin, Statement, WriteEvent, CommitTx}
                && p.id !in old(payments)
                && forall id :: id in old(payments) ==> !SameInstruction(old(payments)[id].payment, p)
      ensures Contents() == Transact(old(Contents()), Change.CreateWithEvent(p, initial), ok)
      ensures payments == if ok then old(payments)[p.id := Row(p, initial, None)] else old(payments)
      ensures outbox == if ok then old(outbox) + [OutboxRow(Event(p.id, None, Received), false)] else old(outbox)
    {
      if Begin in faults {
        return false;
      }
      var clash := exists id :: id in payments
                             && payments[id].payment.sourceBIC == p.sourceBIC
                             && payments[id].payment.endToEndId == p.endToEndId;
      if Statement in faults || p.id in payments || clash {
        return false;
      }
      var stagedRows := payments[p.id := Row(p, initial, None)];
      if WriteEvent in faults {
        return false;
      }
      var stagedOutbox := outbox + [OutboxRow(Event(p.id, None, Received), false)];
      if CommitTx in faults {
        return false;
      }
      history := history[p.id := HistoryOf(Contents(), p.id) + [initial]];
      payments, outbox := stagedRows, stagedOutbox;
      return true;
    }

    method UpdateStatus(id: PaymentId, to: Status, faults: set<Stage>) returns (ok: bool)
      modifies this
      ensures ok <==> faults !! {Begin, Statement, ReadFields, WriteEvent, CommitTx} && id in old(payments)
      ensures Contents() == Transact(old(Contents()), Change.UpdateStatus(id, to), ok)
      ensures payments == if ok then old(payments)[id := old(payments)[id].(status := to)] else old(payments)
      ensures outbox == if ok then old(outbox) + [OutboxRow(Event(id, Some(to), to), false)] else old(outbox)
    {
      if Begin in faults {
        return false;
      }
      if Statement in faults || id !in payments {
        return false; // RETURNING finds no row
      }
      var stagedRows := payments[id := payments[id].(status := to)];
      var fromStatus := stagedRows[id].status;
      if ReadFields in faults || WriteEvent in faults {
        return false;
      }
      var stagedOutbox := outbox + [OutboxRow(Event(id, Some(fromStatus), to), false)];
      if CommitTx in faults {
        return false;
      }
      history := history[id := HistoryOf(Contents(), id) + [to]];
      payments, outbox := stagedRows, stagedOutbox;
      return true;
    }

    method MarkReserved(id: PaymentId, now: int, ttl: int, faults: set<Stage>) returns (ok: bool)
      modifies this
      ensures ok <==> faults !! {Begin, Statement, ReadFields, WriteEvent, CommitTx} && id in old(payments)
      ensures Contents() == Transact(old(Contents()), Change.MarkReserved(id, now, ttl), ok)
      ensures payments == if ok then old(payments)[id := Row(old(payments)[id].payment, Reserved, Some(now + ttl))]
                          else old(payments)
      ensures outbox == if ok then old(outbox) + [OutboxRow(Event(id, Some(Validated), Reserved), false)]
                        else old(outbox)
    {
      if Begin in faults || Statement in faults {
        return false;
      }
      var stagedRows := payments; // an UPDATE that matches no row is not an error
      if id in payments {
        stagedRows := payments[id := Row(payments[id].payment, Reserved, Some(now + ttl))];
      }
      if ReadFields in faults || id !in stagedRows {
        return false;
      }
      if WriteEvent in faults {
        return false;
      }
      var stagedOutbox := outbox + [OutboxRow(Event(id, Some(Validated), Reserved), false)];
      if CommitTx in faults {
        return false;
      }
      history := history[id := HistoryOf(Contents(), id) + [Reserved]];
      payments, outbox := stagedRows, stagedOutbox;
      return true;
    }

    /** One statement outside any explicit transaction, and no event. */
    method UpdateRoute(id: PaymentId, faults: set<Stage>) returns (ok: bool)
      modifies this
      ensures ok <==> Statement !in faults
      ensures Contents() == Transact(old(Contents()), Change.UpdateRoute(id), ok)
      ensures payments == if ok && id in old(payments) then old(payments)[id := old(payments)[id].(status := Routed)]
                          else old(payments)
      ensures outbox == old(outbox)
    {
      if Statement in faults {
        return false;
      }
      if id in payments {
        history := history[id := HistoryOf(Contents(), id) + [Routed]];
        payments := payments[id := payments[id].(status := Routed)];
      }
      return true;
    }

    /** The expired reservations that no other transaction has locked, each once, in the table's order. */
    method FindExpiredReservations(before: int, locked: set<PaymentId>) returns (expired: seq<PaymentId>)
      ensures forall id :: id in expired <==> id in payments && Expired(payments[id], before) && id !in locked
      ensures forall i, j :: 0 <= i < j < |expired| ==> expired[i] != expired[j]
    {
      expired := [];
      var left := payments.Keys;
      while left != {}
        invariant left <= payments.Keys
        invariant forall id :: id in expired <==>
                    id in payments && id !in left && Expired(payments[id], before) && id !in locked
        invariant forall i, j :: 0 <= i < j < |expired| ==> expired[i] != expired[j]
        decreases |left|
      {
        var id :| id in left;
        left := left - {id};
        if Expired(payments[id], before) && id !in locked { // FOR UPDATE SKIP LOCKED
          expired := expired + [id];
        }
      }
    }
  }
}
