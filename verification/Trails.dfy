/** The persisted statuses of every payment, over every interleaving. */
module Trails {
  import opened Domain
  import opened SagaCore
  import opened Steps
  import opened Interleaving
  import opened LoneRun
  import Repository

  /** The status a successful call writes, if any. */
  function StatusOf(op: Op): Option<Status> {
    match op
    case WriteStatus(to) => Some(to)
    case WriteRoute => Some(Routed)
    case MarkReserved => Some(Reserved)
    case _ => None
  }

  /** A history with one more status, if there is one. */
  function Extend(h: seq<Status>, s: Option<Status>): seq<Status> {
    match s case None => h case Some(v) => h + [v]
  }

  function WrittenBy(e: Entry): Option<Status> {
    if e.done then StatusOf(e.op) else None
  }

  /** The statuses a log wrote, in order. */
  function Written(log: seq<Entry>): seq<Status> {
    if log == [] then [] else Extend(Written(log[..|log| - 1]), WrittenBy(log[|log| - 1]))
  }

  function StepStatus(kind: StepKind): Option<Status> {
    match kind
    case Validate => Some(Validated)
    case Lookup => Some(LookedUp)
    case Route => Some(Routed)
    case Quote => Some(Quoted)
    case Screen => Some(Screened)
    case Reserve => Some(Reserved)
    case Commit => Some(Committed)
    case Settle => Some(Settled)
    case RecordReconciliation => None
    case Notify => None
  }

  /** The statuses of the first k steps, in pipeline order. */
  function Statuses(kinds: seq<StepKind>, k: nat): seq<Status>
    requires k <= |kinds|
  {
    if k == 0 then [] else Extend(Statuses(kinds, k - 1), StepStatus(kinds[k - 1]))
  }

  function Aborts(m: nat): seq<Status> {
    seq(m, i => Aborted)
  }

  /** The statuses of j steps in order, and then only ABORTED, m times. */
  predicate Shape(kinds: seq<StepKind>, h: seq<Status>, j: nat, m: nat) {
    j <= |kinds| && h == Statuses(kinds, j) + Aborts(m)
  }

  predicate AnyAbortWritten(q: Proc) {
    Logged(q, WriteStatus(Aborted), true, true) || Logged(q, WriteStatus(Aborted), true, false)
  }

  predicate ValidationFailed(q: Proc) {
    Logged(q, CheckFields, false, false) || Unconfirmed(q, WriteStatus(Validated))
  }

  /** All that a failed validation can have written: VALIDATED, if only the answer was lost. */
  function LeftByValidation(q: Proc): seq<Status> {
    if Logged(q, WriteStatus(Validated), true, false) then [Validated] else []
  }

  /** Going forwards, a saga has written exactly the statuses of its completed steps. */
  predicate WrittenSoFar(kinds: seq<StepKind>, q: Proc) {
    && (q.pc.Exec? ==> q.pc.k <= |kinds| && Written(q.log) == Statuses(kinds, q.pc.k) && !AnyAbortWritten(q))
    && (q.pc == Done(true) ==> Written(q.log) == Statuses(kinds, |kinds|) && !AnyAbortWritten(q))
  }

  /** At all times it has written statuses in pipeline order and then only ABORTED. */
  ghost predicate WrittenInShape(kinds: seq<StepKind>, q: Proc) {
    exists j: nat, m: nat :: Shape(kinds, Written(q.log), j, m) && (m > 0 <==> AnyAbortWritten(q))
  }

  predicate StoppedByValidation(q: Proc) {
    ValidationFailed(q) ==> q.pc == Done(false) && Written(q.log) == LeftByValidation(q)
  }

  /** What a saga has written, given where it stands. */
  ghost predicate TrailInv(kinds: seq<StepKind>, q: Proc) {
    ValidPc(kinds, q.pc) && WrittenSoFar(kinds, q) && WrittenInShape(kinds, q) && StoppedByValidation(q)
  }

  lemma {:induction false} WrittenAppend(log: seq<Entry>, e: Entry)
    ensures Written(log + [e]) == Extend(Written(log), WrittenBy(e))
  {
    assert (log + [e])[..|log|] == log;
  }

  /** Only the last call of an Execute writes a status, and it writes the status of the step. */
  lemma ExecCallStatus(kind: StepKind, c: nat)
    requires c < |ExecCalls(kind)|
    ensures var r := ExecCalls(kind)[c];
            && StatusOf(r.op) == (if c == |ExecCalls(kind)| - 1 then StepStatus(kind) else None)
            && (StatusOf(r.op).Some? ==> r.Must?)
            && r.op != WriteStatus(Aborted)
            && (r.op == CheckFields || r.op == WriteStatus(Validated) ==> kind == Validate && r.Must?)
  {
  }

  /** The number of steps whose status is written after call c of step k, which took effect or not. */
  function StepsWritten(kinds: seq<StepKind>, k: nat, c: nat, done: bool, next: Pc): (n: nat)
    requires ValidPc(kinds, Exec(k, c))
    ensures n <= |kinds|
  {
    if done && StatusOf(ExecCalls(kinds[k])[c].op).Some? then k + 1
    else if next.Exec? && next.k <= |kinds| then next.k
    else if next == Done(true) then |kinds|
    else k
  }

  /** How many steps have written their status once an Execute call has returned. */
  lemma {:induction false} ForwardWritten(kinds: seq<StepKind>, log: seq<Entry>, k: nat, c: nat, id: PaymentId,
                                          done: bool, ok: bool)
    requires ValidPc(kinds, Exec(k, c)) && Written(log) == Statuses(kinds, k) && (ok ==> done)
    ensures var next := Next(kinds, Exec(k, c), ok);
            && Written(log + [Entry(id, ExecCalls(kinds[k])[c].op, done, ok)])
               == Statuses(kinds, StepsWritten(kinds, k, c, done, next))
            && (next.Exec? && next.k <= |kinds| ==> StepsWritten(kinds, k, c, done, next) == next.k)
            && (next == Done(true) ==> StepsWritten(kinds, k, c, done, next) == |kinds|)
  {
    var e, next := Entry(id, ExecCalls(kinds[k])[c].op, done, ok), Next(kinds, Exec(k, c), ok);
    ExecCallStatus(kinds[k], c);
    WrittenAppend(log, e);
    NextForward(kinds, k, c, done, ok);
    StatusesStep(kinds, k);
    if WrittenBy(e).None? {
      assert StepsWritten(kinds, k, c, done, next) == k || StepStatus(kinds[k]) == None;
    }
  }

  lemma StatusesStep(kinds: seq<StepKind>, k: nat)
    requires k < |kinds|
    ensures Statuses(kinds, k + 1) == Extend(Statuses(kinds, k), StepStatus(kinds[k]))
  {
  }

  /** Where an Execute call leads: on, to the next step if it was the last, or back; a lost status leads back. */
  lemma NextForward(kinds: seq<StepKind>, k: nat, c: nat, done: bool, ok: bool)
    requires ValidPc(kinds, Exec(k, c)) && (ok ==> done)
    ensures var next, last := Next(kinds, Exec(k, c), ok), c == |ExecCalls(kinds[k])| - 1;
            && (next.Exec? ==> next.k == (if last then k + 1 else k))
            && (next == Done(true) ==> last && k + 1 == |kinds|)
            && (!done && StatusOf(ExecCalls(kinds[k])[c].op).Some? ==> !next.Exec? && next != Done(true))
  {
    ExecCallStatus(kinds[k], c);
    CompFromValid(kinds, k);
  }

  lemma {:induction false} ForwardTrail(settles: bool, q: Proc, done: bool, ok: bool)
    requires ValidPc(Pipeline(settles), q.pc) && q.pc.Exec? && (ok ==> done)
    requires WrittenSoFar(Pipeline(settles), q) && StoppedByValidation(q)
    ensures var kinds := Pipeline(settles);
            TrailInv(kinds, Called(settles, q, RequestAt(kinds, q.pc).op, done, ok))
  {
    NextValid(Pipeline(settles), q.pc, ok);
    ForwardSoFar(Pipeline(settles), q, done, ok);
    ForwardValidation(settles, q, done, ok);
  }

  lemma {:induction false} ForwardSoFar(kinds: seq<StepKind>, q: Proc, done: bool, ok: bool)
    requires ValidPc(kinds, q.pc) && q.pc.Exec? && (ok ==> done) && ValidPc(kinds, Next(kinds, q.pc, ok))
    requires Written(q.log) == Statuses(kinds, q.pc.k) && !AnyAbortWritten(q)
    ensures var q' := Logging(q, RequestAt(kinds, q.pc).op, done, ok, Next(kinds, q.pc, ok));
            WrittenSoFar(kinds, q') && WrittenInShape(kinds, q')
  {
    var next := Next(kinds, q.pc, ok);
    ForwardAborts(kinds, q, done, ok, next);
    ForwardWritten(kinds, q.log, q.pc.k, q.pc.c, q.payment.id, done, ok);
    ForwardShape(kinds, Logging(q, RequestAt(kinds, q.pc).op, done, ok, next),
                 StepsWritten(kinds, q.pc.k, q.pc.c, done, next));
  }

  lemma ForwardShape(kinds: seq<StepKind>, q: Proc, n: nat)
    requires n <= |kinds| && Written(q.log) == Statuses(kinds, n) && !AnyAbortWritten(q)
    ensures WrittenInShape(kinds, q)
  {
    assert Statuses(kinds, n) + Aborts(0) == Statuses(kinds, n);
    assert Shape(kinds, Written(q.log), n, 0);
  }

  /** A forward call never writes ABORTED. */
  lemma ForwardAborts(kinds: seq<StepKind>, q: Proc, done: bool, ok: bool, next: Pc)
    requires ValidPc(kinds, q.pc) && q.pc.Exec? && (ok ==> done) && !AnyAbortWritten(q)
    ensures !AnyAbortWritten(Logging(q, RequestAt(kinds, q.pc).op, done, ok, next))
  {
    ExecCallStatus(kinds[q.pc.k], q.pc.c);
    AbortAppend(q, RequestAt(kinds, q.pc).op, done, ok, next);
  }

  /** What the last forward call says about validation. */
  lemma {:induction false} ForwardValidation(settles: bool, q: Proc, done: bool, ok: bool)
    requires ValidPc(Pipeline(settles), q.pc) && q.pc.Exec? && (ok ==> done)
    requires Written(q.log) == Statuses(Pipeline(settles), q.pc.k) && StoppedByValidation(q)
    ensures StoppedByValidation(Called(settles, q, RequestAt(Pipeline(settles), q.pc).op, done, ok))
  {
    var kinds := Pipeline(settles);
    var op, next := RequestAt(kinds, q.pc).op, Next(kinds, q.pc, ok);
    PipelineShape(settles);
    ExecCallStatus(kinds[q.pc.k], q.pc.c);
    WrittenAppend(q.log, Entry(q.payment.id, op, done, ok));
    ValidationAppend(q, op, done, ok, next);
  }

  lemma AbortAppend(q: Proc, op: Op, done: bool, ok: bool, next: Pc)
    requires ok ==> done
    ensures AnyAbortWritten(Logging(q, op, done, ok, next)) <==>
            AnyAbortWritten(q) || (op == WriteStatus(Aborted) && done)
  {
    LoggedAppend(q, op, done, ok, next, WriteStatus(Aborted), true, true);
    LoggedAppend(q, op, done, ok, next, WriteStatus(Aborted), true, false);
  }

  lemma ValidationAppend(q: Proc, op: Op, done: bool, ok: bool, next: Pc)
    requires ok ==> done
    ensures var q' := Logging(q, op, done, ok, next);
            && (ValidationFailed(q') <==>
                ValidationFailed(q) || (op == CheckFields && !done) || (op == WriteStatus(Validated) && !ok))
            && (Logged(q', WriteStatus(Validated), true, false) <==>
                Logged(q, WriteStatus(Validated), true, false) || (op == WriteStatus(Validated) && done && !ok))
  {
    LoggedAppend(q, op, done, ok, next, CheckFields, false, false);
    LoggedAppend(q, op, done, ok, next, WriteStatus(Validated), false, false);
    LoggedAppend(q, op, done, ok, next, WriteStatus(Validated), true, false);
  }

  lemma CompCallOp(kind: StepKind, c: nat)
    requires c < |CompCalls(kind)|
    ensures CompCalls(kind)[c].op.BankCall? || CompCalls(kind)[c].op == WriteStatus(Aborted)
  {
  }

  lemma BackwardNext(kinds: seq<StepKind>, pc: Pc, ok: bool)
    requires ValidPc(kinds, pc) && pc.Comp?
    ensures var op, next := RequestAt(kinds, pc).op, Next(kinds, pc, ok);
            && (op.BankCall? || op == WriteStatus(Aborted))
            && ValidPc(kinds, next) && !next.Exec? && next != Done(true)
  {
    CompCallOp(kinds[pc.k], pc.c);
    CompFromValid(kinds, pc.k);
  }

  lemma ShapeStep(kinds: seq<StepKind>, h: seq<Status>, j: nat, m: nat, aborts: bool)
    requires Shape(kinds, h, j, m)
    ensures Shape(kinds, Extend(h, if aborts then Some(Aborted) else None), j, if aborts then m + 1 else m)
  {
    if aborts {
      assert Aborts(m + 1) == Aborts(m) + [Aborted];
      assert (Statuses(kinds, j) + Aborts(m)) + [Aborted] == Statuses(kinds, j) + (Aborts(m) + [Aborted]);
    }
  }

  lemma BackwardWritten(q: Proc, op: Op, done: bool, ok: bool, next: Pc)
    requires (ok ==> done) && (op.BankCall? || op == WriteStatus(Aborted))
    ensures var q', aborts := Logging(q, op, done, ok, next), op == WriteStatus(Aborted) && done;
            && Written(q'.log) == Extend(Written(q.log), if aborts then Some(Aborted) else None)
            && (AnyAbortWritten(q') <==> AnyAbortWritten(q) || aborts)
  {
    WrittenAppend(q.log, Entry(q.payment.id, op, done, ok));
    AbortAppend(q, op, done, ok, next);
  }

  lemma {:induction false} BackwardShape(kinds: seq<StepKind>, q: Proc, op: Op, done: bool, ok: bool, next: Pc)
    requires WrittenInShape(kinds, q) && (ok ==> done) && (op.BankCall? || op == WriteStatus(Aborted))
    ensures WrittenInShape(kinds, Logging(q, op, done, ok, next))
  {
    var j: nat, m: nat :| Shape(kinds, Written(q.log), j, m) && (m > 0 <==> AnyAbortWritten(q));
    ShapeStep(kinds, Written(q.log), j, m, op == WriteStatus(Aborted) && done);
    BackwardWritten(q, op, done, ok, next);
  }

  lemma {:induction false} BackwardTrail(kinds: seq<StepKind>, q: Proc, op: Op, done: bool, ok: bool, next: Pc)
    requires TrailInv(kinds, q) && q.pc.Comp? && (ok ==> done)
    requires op.BankCall? || op == WriteStatus(Aborted)
    requires ValidPc(kinds, next) && !next.Exec? && next != Done(true)
    ensures TrailInv(kinds, Logging(q, op, done, ok, next))
  {
    BackwardShape(kinds, q, op, done, ok, next);
    ValidationAppend(q, op, done, ok, next);
  }

  /** Every call of a saga, successful or not, keeps what it has written in shape. */
  lemma CallKeepsTrail(settles: bool, q: Proc, done: bool, ok: bool)
    requires TrailInv(Pipeline(settles), q) && !q.pc.Done? && (ok ==> done)
    ensures TrailInv(Pipeline(settles), Called(settles, q, RequestAt(Pipeline(settles), q.pc).op, done, ok))
  {
    var kinds := Pipeline(settles);
    if q.pc.Exec? {
      ForwardTrail(settles, q, done, ok);
    } else {
      BackwardNext(kinds, q.pc, ok);
      BackwardTrail(kinds, q, RequestAt(kinds, q.pc).op, done, ok, Next(kinds, q.pc, ok));
    }
  }

  /** What one call does to the committed history: its own payment gains at most its status. */
  lemma EffectOnHistory(op: Op, p: Payment, s: Shared, t: Turn)
    requires s.tables.Valid() && p.id in s.tables.payments
    ensures var (s', done) := Effect(op, p, s, t);
            && s'.tables.Valid()
            && s'.tables.payments.Keys == s.tables.payments.Keys
            && Repository.HistoryOf(s'.tables, p.id)
               == Extend(Repository.HistoryOf(s.tables, p.id), if done then StatusOf(op) else None)
            && (forall id :: id != p.id ==> Repository.HistoryOf(s'.tables, id) == Repository.HistoryOf(s.tables, id))
  {
    if op.WriteStatus? || op.WriteRoute? || op.MarkReserved? {
      ChangeWrites(op, p, t.at);
      Repository.TransactKeepsValid(s.tables, ChangeOf(op, p, t.at), t.reachable);
      Repository.UpdateExtendsHistory(s.tables, ChangeOf(op, p, t.at), t.reachable);
    } else {
      assert Effect(op, p, s, t).0.tables == s.tables;
    }
  }

  /** The change that a write makes to the tables. */
  lemma ChangeWrites(op: Op, p: Payment, at: int)
    requires op.WriteStatus? || op.WriteRoute? || op.MarkReserved?
    ensures var change := ChangeOf(op, p, at);
            && !change.CreateRow? && !change.CreateWithEvent?
            && change.id == p.id && StatusOf(op) == Some(change.NewStatus())
  {
  }

  lemma ExtendConcat(h: seq<Status>, w: seq<Status>, s: Option<Status>)
    ensures Extend(h + w, s) == h + Extend(w, s)
  {
    if s.Some? {
      assert (h + w) + [s.value] == h + (w + [s.value]);
    }
  }

  lemma {:induction false} CallExtendsTrail(op: Op, p: Payment, s: Shared, t: Turn, h: seq<Status>, log: seq<Entry>)
    requires s.tables.Valid() && p.id in s.tables.payments
    requires Repository.HistoryOf(s.tables, p.id) == h + Written(log)
    ensures var (s', done) := Effect(op, p, s, t);
            && s'.tables.Valid()
            && s'.tables.payments.Keys == s.tables.payments.Keys
            && Repository.HistoryOf(s'.tables, p.id) == h + Written(log + [Entry(p.id, op, done, Seen(op, done, t))])
            && (forall id :: id != p.id ==> Repository.HistoryOf(s'.tables, id) == Repository.HistoryOf(s.tables, id))
  {
    var (s', done) := Effect(op, p, s, t);
    var e := Entry(p.id, op, done, Seen(op, done, t));
    EffectOnHistory(op, p, s, t);
    WrittenAppend(log, e);
    ExtendConcat(h, Written(log), WrittenBy(e));
  }

  /** Payments that are all in the table, under different ids, and have not started. */
  predicate Stored(s: State) {
    && s.shared.tables.Valid()
    && (forall i :: 0 <= i < |s.procs| ==> s.procs[i].pc == Exec(0, 0) && s.procs[i].log == [])
    && (forall i :: 0 <= i < |s.procs| ==> s.procs[i].payment.id in s.shared.tables.payments)
    && (forall i, j :: 0 <= i < j < |s.procs| ==> s.procs[i].payment.id != s.procs[j].payment.id)
  }

  ghost predicate HistoryInv(settles: bool, s0: State, s: State) {
    && s.shared.tables.Valid()
    && s.shared.tables.payments.Keys == s0.shared.tables.payments.Keys
    && |s.procs| == |s0.procs|
    && (forall i :: 0 <= i < |s.procs| ==> s.procs[i].payment == s0.procs[i].payment)
    && (forall i :: 0 <= i < |s.procs| ==> TrailInv(Pipeline(settles), s.procs[i]))
    && (forall i :: 0 <= i < |s.procs| ==>
          Repository.HistoryOf(s.shared.tables, s.procs[i].payment.id)
          == Repository.HistoryOf(s0.shared.tables, s.procs[i].payment.id) + Written(s.procs[i].log))
  }

  lemma UpdateKeepsHistory(settles: bool, s0: State, s: State, i: nat, q: Proc, shared: Shared)
    requires Stored(s0) && HistoryInv(settles, s0, s) && i < |s.procs| && q.payment == s.procs[i].payment
    requires TrailInv(Pipeline(settles), q)
    requires shared.tables.Valid() && shared.tables.payments.Keys == s.shared.tables.payments.Keys
    requires Repository.HistoryOf(shared.tables, q.payment.id)
          == Repository.HistoryOf(s0.shared.tables, q.payment.id) + Written(q.log)
    requires forall id :: id != q.payment.id ==>
               Repository.HistoryOf(shared.tables, id) == Repository.HistoryOf(s.shared.tables, id)
    ensures HistoryInv(settles, s0, State(shared, s.procs[i := q]))
  {
    var procs := s.procs[i := q];
    forall j | 0 <= j < |procs|
      ensures TrailInv(Pipeline(settles), procs[j])
      ensures Repository.HistoryOf(shared.tables, procs[j].payment.id)
           == Repository.HistoryOf(s0.shared.tables, procs[j].payment.id) + Written(procs[j].log)
    {
      if j != i {
        assert TrailInv(Pipeline(settles), s.procs[j]) && procs[j].payment == s0.procs[j].payment;
        assert procs[j].payment.id != q.payment.id;
      }
    }
  }

  lemma AdvanceKeepsHistory(settles: bool, s0: State, s: State, a: Action)
    requires Stored(s0) && WellFormed(settles, s) && HistoryInv(settles, s0, s)
    ensures HistoryInv(settles, s0, Advance(settles, s, a))
  {
    if a.who < |s.procs| && !s.procs[a.who].pc.Done? {
      var q := s.procs[a.who];
      var op := RequestAt(Pipeline(settles), q.pc).op;
      var (shared, done) := Effect(op, q.payment, s.shared, a.turn);
      var q' := Called(settles, q, op, done, Seen(op, done, a.turn));
      CallKeepsTrail(settles, q, done, Seen(op, done, a.turn));
      CallExtendsTrail(op, q.payment, s.shared, a.turn, Repository.HistoryOf(s0.shared.tables, q.payment.id), q.log);
      UpdateKeepsHistory(settles, s0, s, a.who, q', shared);
    }
  }

  lemma {:induction false} RunKeepsHistory(settles: bool, s0: State, schedule: seq<Action>)
    requires Stored(s0) && WellFormed(settles, s0)
    ensures HistoryInv(settles, s0, Run(settles, s0, schedule))
    decreases |schedule|
  {
    if schedule == [] {
      forall i | 0 <= i < |s0.procs|
        ensures TrailInv(Pipeline(settles), s0.procs[i])
      {
        assert Shape(Pipeline(settles), Written(s0.procs[i].log), 0, 0);
      }
    } else {
      var before := schedule[..|schedule| - 1];
      RunKeepsHistory(settles, s0, before);
      AdvanceKeepsHistory(settles, s0, Run(settles, s0, before), schedule[|schedule| - 1]);
    }
  }

  // ------------------------------------------------------------ the theorems

  /** What the persisted statuses of one saga look like, compared with the tables it started from. */
  ghost predicate Orderly(settles: bool, t0: Repository.Tables, t: Repository.Tables, q: Proc) {
    var id, kinds := q.payment.id, Pipeline(settles);
    var h0, h := Repository.HistoryOf(t0, id), Repository.HistoryOf(t, id);
    && id in t0.payments && id in t.payments
    && (exists j: nat, m: nat :: j <= |kinds| && h == h0 + (Statuses(kinds, j) + Aborts(m)))
    && (q.pc == Done(true) ==> h == h0 + Statuses(kinds, |kinds|))
    && (q.pc == Done(false) && AnyAbortWritten(q) ==> t.payments[id].status == Aborted)
    && (ValidationFailed(q) ==> q.pc == Done(false) && h == h0 + LeftByValidation(q))
  }

  lemma TrailIsOrderly(settles: bool, t0: Repository.Tables, t: Repository.Tables, q: Proc)
    requires t0.Valid() && t.Valid() && t0.payments.Keys == t.payments.Keys && q.payment.id in t0.payments
    requires TrailInv(Pipeline(settles), q)
    requires Repository.HistoryOf(t, q.payment.id) == Repository.HistoryOf(t0, q.payment.id) + Written(q.log)
    ensures Orderly(settles, t0, t, q)
  {
    var id, kinds := q.payment.id, Pipeline(settles);
    var h := Repository.HistoryOf(t, id);
    var j: nat, m: nat :| Shape(kinds, Written(q.log), j, m) && (m > 0 <==> AnyAbortWritten(q));
    assert h == Repository.HistoryOf(t0, id) + (Statuses(kinds, j) + Aborts(m));
    if AnyAbortWritten(q) {
      assert h[|h| - 1] == Aborts(m)[m - 1];
    }
  }

  /**
   * In every interleaving the persisted statuses of each payment follow the pipeline order and then
   * only ABORTED; a failed saga ends ABORTED as soon as one compensating status write took effect, and
   * a failure in validation leaves the status it started with, unless only the answer to the VALIDATED
   * write was lost.
   */
  lemma {:induction false} StatusesFollowPipeline(settles: bool, s0: State, schedule: seq<Action>, i: nat)
    requires Stored(s0) && WellFormed(settles, s0) && i < |s0.procs|
    ensures var s := Run(settles, s0, schedule);
            |s.procs| == |s0.procs| && Orderly(settles, s0.shared.tables, s.shared.tables, s.procs[i])
  {
    RunKeepsHistory(settles, s0, schedule);
    var s := Run(settles, s0, schedule);
    TrailIsOrderly(settles, s0.shared.tables, s.shared.tables, s.procs[i]);
  }

  /** The same for one call of Saga.Run, under every failure schedule. */
  lemma {:induction false} RunStatusesFollowPipeline(settles: bool, p: Payment, o: Oracle, shared: Shared)
    requires shared.tables.Valid() && p.id in shared.tables.payments
    ensures var run := RunFrom(Wired(settles, o), 0, p, World(shared, []));
            Orderly(settles, shared.tables, run.world.shared.tables, Proc(p, Done(run.ok), run.world.log))
  {
    var w := World(shared, []);
    var run := RunFrom(Wired(settles, o), 0, p, w);
    RunRefines(settles, p, o, w, 0);
    StatusesFollowPipeline(settles, Alone(p, w, Exec(0, 0)), Solo(o, 0, |run.world.log|), 0);
  }
}
