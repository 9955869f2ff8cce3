/** When the `from` field of a published event is the status the payment really came from. */
module Provenance {
  import opened Domain
  import opened Steps
  import opened Interleaving
  import opened Trails
  import opened Recovery
  import Repository

  /** The event names the status its payment had before, in the tables it was written to. */
  predicate TellsOrigin(t: Repository.Tables, e: Repository.Event) {
    e.payment in t.payments && e.from == Some(t.payments[e.payment].status)
  }

  /** Stored payments that have all been received and not yet worked on. */
  predicate AllReceived(s: State) {
    && Stored(s)
    && forall i :: 0 <= i < |s.procs| ==> s.shared.tables.payments[s.procs[i].payment.id].status == Received
  }

  /** The last status after the first k steps of a received payment. */
  lemma {:induction false} LastOfStatuses(kinds: seq<StepKind>, k: nat, h: seq<Status>)
    requires k <= |kinds| && h != [] && h[|h| - 1] == Received
    ensures var all := h + Statuses(kinds, k);
            all[|all| - 1] == PersistedAfter(kinds, k)
    decreases k
  {
    if k > 0 {
      LastOfStatuses(kinds, k - 1, h);
      ExtendConcat(h, Statuses(kinds, k - 1), StepStatus(kinds[k - 1]));
    }
  }

  /** No step writes the status it finds, and the reservation does not find VALIDATED. */
  lemma {:induction false} StepsChangeStatus(settles: bool, k: nat)
    requires k < |Pipeline(settles)|
    ensures var kinds := Pipeline(settles);
            && StepStatus(kinds[k]) != Some(PersistedAfter(kinds, k))
            && (kinds[k].Reserve? ==> PersistedAfter(kinds, k) == Screened)
  {
    PipelineShape(settles);
    StepCountOfPrefix(settles, k);
    StepCountOfPrefix(settles, k + 1);
    if Pipeline(settles)[k].Reserve? {
      assert Pipeline(settles)[4] == Pipeline(settles)[..7][4];
    }
  }

  /** A saga of a received payment, and the tables that hold what it has written. */
  ghost predicate Tracked(settles: bool, h0: seq<Status>, t: Repository.Tables, q: Proc) {
    && TrailInv(Pipeline(settles), q)
    && t.Valid() && q.payment.id in t.payments
    && h0 != [] && h0[|h0| - 1] == Received
    && Repository.HistoryOf(t, q.payment.id) == h0 + Written(q.log)
  }

  /** The status a saga finds when it is about to write forwards. */
  lemma StatusBeforeStep(settles: bool, h0: seq<Status>, t: Repository.Tables, q: Proc)
    requires Tracked(settles, h0, t, q) && q.pc.Exec?
    ensures t.payments[q.payment.id].status == PersistedAfter(Pipeline(settles), q.pc.k)
  {
    LastOfStatuses(Pipeline(settles), q.pc.k, h0);
  }

  /** A write with an event adds that event to the outbox or leaves the outbox alone. */
  lemma CallAppendsEvent(op: Op, p: Payment, s: Shared, t: Turn)
    ensures var (s', ok) := Effect(op, p, s, t);
            if ok && (op.WriteStatus? || op.MarkReserved?)
            then s'.tables.outbox == s.tables.outbox
                 + [Repository.OutboxRow(Repository.EventOf(ChangeOf(op, p, t.at)).value, false)]
            else s'.tables.outbox == s.tables.outbox
  {
  }

  lemma ExecCallMarks(kind: StepKind, c: nat)
    requires c < |ExecCalls(kind)|
    ensures ExecCalls(kind)[c].op.MarkReserved? ==> kind.Reserve?
  {
  }

  /** What an event of one call says about its origin, given where the saga stands. */
  lemma OriginOfCall(settles: bool, h0: seq<Status>, t: Repository.Tables, q: Proc, at: int)
    requires ValidPc(Pipeline(settles), q.pc) && !q.pc.Done? && q.payment.id in t.payments
    requires q.pc.Exec? ==> Tracked(settles, h0, t, q)
    requires var op := RequestAt(Pipeline(settles), q.pc).op; op.WriteStatus? || op.MarkReserved?
    ensures var e := Repository.EventOf(ChangeOf(RequestAt(Pipeline(settles), q.pc).op, q.payment, at)).value;
            OriginToldRightly(t, e)
  {
    var kinds := Pipeline(settles);
    if q.pc.Exec? {
      StatusBeforeStep(settles, h0, t, q);
      StepsChangeStatus(settles, q.pc.k);
      ExecCallStatus(kinds[q.pc.k], q.pc.c);
      ExecCallMarks(kinds[q.pc.k], q.pc.c);
    } else {
      CompCallOp(kinds[q.pc.k], q.pc.c);
    }
  }

  /** The event tells its origin if and only if it announces ABORTED for a payment that was ABORTED already. */
  predicate OriginToldRightly(t: Repository.Tables, e: Repository.Event) {
    e.payment in t.payments
    && (TellsOrigin(t, e) <==> e.to == Aborted && t.payments[e.payment].status == Aborted)
  }

  /** One move of the machine wrote no event, or one, which tells its origin only if it repeats ABORTED. */
  ghost predicate OriginsToldRightly(t: Repository.Tables, t': Repository.Tables) {
    || t'.outbox == t.outbox
    || exists e :: t'.outbox == t.outbox + [Repository.OutboxRow(e, false)] && OriginToldRightly(t, e)
  }

  lemma ToldByEvent(t: Repository.Tables, t': Repository.Tables, e: Repository.Event)
    requires t'.outbox == t.outbox + [Repository.OutboxRow(e, false)] && OriginToldRightly(t, e)
    ensures OriginsToldRightly(t, t')
  {
  }

  lemma CallTellsOrigin(settles: bool, h0: seq<Status>, s: Shared, q: Proc, t: Turn)
    requires ValidPc(Pipeline(settles), q.pc) && !q.pc.Done? && q.payment.id in s.tables.payments
    requires q.pc.Exec? ==> Tracked(settles, h0, s.tables, q)
    ensures OriginsToldRightly(s.tables, Effect(RequestAt(Pipeline(settles), q.pc).op, q.payment, s, t).0.tables)
  {
    var p, op := q.payment, RequestAt(Pipeline(settles), q.pc).op;
    var (shared, done) := Effect(op, p, s, t);
    CallAppendsEvent(op, p, s, t);
    if done && (op.WriteStatus? || op.MarkReserved?) {
      OriginOfCall(settles, h0, s.tables, q, t.at);
      ToldByEvent(s.tables, shared.tables, Repository.EventOf(ChangeOf(op, p, t.at)).value);
    }
  }

  lemma AdvanceTellsOrigin(settles: bool, s0: State, s: State, a: Action)
    requires AllReceived(s0) && HistoryInv(settles, s0, s) && WellFormed(settles, s)
    ensures OriginsToldRightly(s.shared.tables, Advance(settles, s, a).shared.tables)
  {
    if a.who < |s.procs| && !s.procs[a.who].pc.Done? {
      var q := s.procs[a.who];
      assert s0.procs[a.who].payment == q.payment && TrailInv(Pipeline(settles), q);
      CallTellsOrigin(settles, Repository.HistoryOf(s0.shared.tables, q.payment.id), s.shared, q, a.turn);
    }
  }

  /**
   * In every interleaving of received payments, every event of a status update carries the true
   * previous status if and only if it announces ABORTED for a payment that was ABORTED already.
   */
  lemma {:induction false} EventOriginIff(settles: bool, s0: State, schedule: seq<Action>, a: Action)
    requires AllReceived(s0) && WellFormed(settles, s0)
    ensures var s := Run(settles, s0, schedule);
            OriginsToldRightly(s.shared.tables, Advance(settles, s, a).shared.tables)
  {
    RunKeepsHistory(settles, s0, schedule);
    AdvanceTellsOrigin(settles, s0, Run(settles, s0, schedule), a);
  }
}
