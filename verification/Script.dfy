/** The calls of a saga one by one: a fixed order in which every required answer decides whether there is a next. */
module Script {
  import opened Domain
  import opened SagaCore
  import opened Steps
  import opened Interleaving
  import opened LoneRun
  import Bank

  /** All calls of a saga that nothing stops, in order. */
  function Forward(settles: bool): seq<Op> {
    [CheckFields, WriteStatus(Validated),
     Remote(Directory), WriteStatus(LookedUp),
     Remote(Router), WriteRoute,
     Remote(Quoter), WriteStatus(Quoted),
     Remote(Compliance), WriteStatus(Screened),
     BankCall(Bank.Hold), MarkReserved,
     BankCall(Bank.Deposit), WriteStatus(Committed)]
    + (if settles then [Remote(Clearing), WriteStatus(Settled)] else [])
    + [Remote(Reconciler), Remote(Notifier), Remote(Notifier)]
  }

  /** How many of them must succeed: all but the reconciliation record and the two notifications. */
  function Required(settles: bool): nat {
    if settles then 16 else 14
  }

  /** The calls that undo everything up to the commit step. */
  const UNDO: seq<Op> := [BankCall(Bank.Withdraw), WriteStatus(Aborted), BankCall(Bank.Release), WriteStatus(Aborted),
                          WriteStatus(Aborted), WriteStatus(Aborted), WriteStatus(Aborted)]

  predicate Undoes(op: Op) {
    op == BankCall(Bank.Withdraw) || op == BankCall(Bank.Release) || op == WriteStatus(Aborted)
  }

  /** How many of them, from the end, undo the first k steps. */
  function UndoSteps(k: nat): (n: nat)
    ensures n <= |UNDO|
  {
    if k == 0 then 0 else if k <= 3 then 1 else if k == 4 then 2 else if k == 5 then 3 else if k == 6 then 5 else 7
  }

  /** The calls made once call number f of a saga has failed. */
  function Backward(f: nat): (undo: seq<Op>)
    ensures |undo| == UndoSteps(f / 2)
  {
    UNDO[|UNDO| - UndoSteps(f / 2)..]
  }

  function Ops(log: seq<Entry>): (ops: seq<Op>)
    ensures |ops| == |log| && forall i :: 0 <= i < |log| ==> ops[i] == log[i].op
  {
    seq(|log|, i requires 0 <= i < |log| => log[i].op)
  }

  /** The fields that validation looks at. */
  predicate FilledIn(p: Payment) {
    && p.amount > 0
    && p.sourceBIC != "" && p.destinationBIC != ""
    && p.sourceAccount != "" && p.destAccount != ""
    && p.currency != ""
  }

  // ------------------------------------------------------------ where a saga stands in the script

  /** The number of calls a saga has made that nothing stopped so far. */
  function Position(settles: bool, pc: Pc): nat
    requires pc.Exec? || pc == Done(true)
  {
    var reconcile := Required(settles) / 2;
    if pc.Done? then Required(settles) + 3
    else if pc.k <= reconcile then 2 * pc.k + pc.c
    else Required(settles) + 1 + pc.c
  }

  /** The number of calls that a rollback still has to make. */
  function Remaining(pc: Pc): int
    requires pc.Comp? || pc == Done(false)
  {
    if pc.Done? then 0 else UndoSteps(pc.k + 1) - pc.c
  }

  /** The kinds of the steps by number. */
  lemma KindsAre(settles: bool)
    ensures var kinds := Pipeline(settles);
            && kinds[..7] == [Validate, Lookup, Route, Quote, Screen, Reserve, Commit]
            && |kinds| == Required(settles) / 2 + 2
            && kinds[Required(settles) / 2] == RecordReconciliation && kinds[Required(settles) / 2 + 1] == Notify
            && (settles ==> kinds[7] == Settle)
  {
  }

  /** Call c of step k is the next call of the script. */
  lemma ExecAt(settles: bool, k: nat, c: nat)
    requires ValidPc(Pipeline(settles), Exec(k, c))
    ensures var n, request := Position(settles, Exec(k, c)), RequestAt(Pipeline(settles), Exec(k, c));
            && n < |Forward(settles)| && request.op == Forward(settles)[n]
            && (request.Must? <==> n < Required(settles))
            && (n < Required(settles) ==> n / 2 == k)
  {
    KindsAre(settles);
    if k < 7 {
      EarlyAt(settles, k, c);
    }
  }

  lemma EarlyAt(settles: bool, k: nat, c: nat)
    requires ValidPc(Pipeline(settles), Exec(k, c)) && k < 7
    ensures var request := RequestAt(Pipeline(settles), Exec(k, c));
            c < 2 && request.op == Forward(settles)[2 * k + c] && request.Must?
  {
    KindsAre(settles);
    assert Pipeline(settles)[k] == Pipeline(settles)[..7][k];
  }

  /** What is left to undo when step k has failed. */
  lemma {:induction false} CompFromRemaining(settles: bool, k: nat)
    requires k <= 7
    ensures var pc := CompFrom(Pipeline(settles), k);
            && ValidPc(Pipeline(settles), pc) && (pc.Comp? || pc == Done(false))
            && (pc.Comp? ==> pc.k <= 6) && Remaining(pc) == UndoSteps(k)
  {
    if k > 0 {
      var kind := Pipeline(settles)[k - 1];
      KindsAre(settles);
      assert kind == Pipeline(settles)[..7][k - 1];
      if CompCalls(kind) == [] {
        assert k == 2 || k == 3;
        CompFromRemaining(settles, k - 1);
      }
    }
  }

  /** A required call that fails starts the rollback of the steps before it. */
  lemma ForwardBreaks(settles: bool, k: nat, c: nat)
    requires ValidPc(Pipeline(settles), Exec(k, c)) && Position(settles, Exec(k, c)) < Required(settles)
    ensures var n, next := Position(settles, Exec(k, c)), Next(Pipeline(settles), Exec(k, c), false);
            && ValidPc(Pipeline(settles), next)
            && (next.Comp? || next == Done(false)) && (next.Comp? ==> next.k <= 6)
            && Remaining(next) == UndoSteps(n / 2)
  {
    KindsAre(settles);
    ExecAt(settles, k, c);
    CompFromRemaining(settles, k);
  }

  /** The number of calls of a step. */
  lemma CallsOfStep(settles: bool, k: nat)
    requires k < |Pipeline(settles)|
    ensures |ExecCalls(Pipeline(settles)[k])| == if k == Required(settles) / 2 then 1 else 2
  {
    KindsAre(settles);
    if k < 7 {
      assert Pipeline(settles)[k] == Pipeline(settles)[..7][k];
    }
  }

  /** The call after call c of step k, if nothing stops the saga. */
  lemma PositionAfter(settles: bool, k: nat, c: nat)
    requires ValidPc(Pipeline(settles), Exec(k, c))
    ensures var next := if c + 1 < |ExecCalls(Pipeline(settles)[k])| then Exec(k, c + 1)
                        else ExecFrom(Pipeline(settles), k + 1);
            && (next.Exec? || next == Done(true))
            && Position(settles, next) == Position(settles, Exec(k, c)) + 1
  {
    CallsOfStep(settles, k);
    LastStep(settles);
  }

  /** Any other call leads to the next one. */
  lemma ForwardGoesOn(settles: bool, k: nat, c: nat, ok: bool)
    requires ValidPc(Pipeline(settles), Exec(k, c))
    requires ok || Position(settles, Exec(k, c)) >= Required(settles)
    ensures var next := Next(Pipeline(settles), Exec(k, c), ok);
            && ValidPc(Pipeline(settles), next)
            && (next.Exec? || next == Done(true))
            && Position(settles, next) == Position(settles, Exec(k, c)) + 1
  {
    ExecAt(settles, k, c);
    PositionAfter(settles, k, c);
    NextValid(Pipeline(settles), Exec(k, c), ok);
  }

  lemma LastStep(settles: bool)
    ensures |Pipeline(settles)| == Required(settles) / 2 + 2
  {
  }

  /** Backwards, every call leads to the next one, whatever it meets. */
  lemma BackwardNext(settles: bool, k: nat, c: nat, ok: bool)
    requires ValidPc(Pipeline(settles), Comp(k, c)) && k <= 6
    ensures var left, next := Remaining(Comp(k, c)), Next(Pipeline(settles), Comp(k, c), ok);
            && 0 < left <= |UNDO|
            && RequestAt(Pipeline(settles), Comp(k, c)).op == UNDO[|UNDO| - left]
            && ValidPc(Pipeline(settles), next)
            && (next.Comp? || next == Done(false)) && (next.Comp? ==> next.k <= 6)
            && Remaining(next) == left - 1
  {
    KindsAre(settles);
    assert Pipeline(settles)[k] == Pipeline(settles)[..7][k];
    CompFromRemaining(settles, k);
  }

  // ------------------------------------------------------------ the log of a saga

  /** Every entry is the saga's own, and success was never seen without effect. */
  predicate OwnEntries(id: PaymentId, log: seq<Entry>) {
    forall i :: 0 <= i < |log| ==> log[i].payment == id && (log[i].ok ==> log[i].done)
  }

  /** The first entry, the local check, succeeded exactly for a filled-in payment. */
  predicate FieldsDecide(q: Proc) {
    q.log != [] ==> (q.log[0].ok <==> FilledIn(q.payment))
  }

  predicate AllSeen(log: seq<Entry>, n: nat) {
    forall i :: 0 <= i < n && i < |log| ==> log[i].ok
  }

  /** Nothing has stopped the saga: it has made the calls so far, and the required ones succeeded. */
  predicate GoesOn(settles: bool, q: Proc) {
    && (q.pc.Exec? || q.pc == Done(true))
    && Position(settles, q.pc) <= |Forward(settles)|
    && Ops(q.log) == Forward(settles)[..Position(settles, q.pc)]
    && AllSeen(q.log, Required(settles))
  }

  /** Call f failed: the calls before succeeded, and after it came only the first calls of its rollback. */
  predicate BrokeAt(settles: bool, q: Proc, f: nat) {
    && (q.pc.Comp? || q.pc == Done(false)) && (q.pc.Comp? ==> q.pc.k <= 6)
    && f < Required(settles) && f < |q.log| && !q.log[f].ok && AllSeen(q.log, f)
    && 0 <= Remaining(q.pc) <= |Backward(f)|
    && Ops(q.log) == Forward(settles)[..f + 1] + Backward(f)[..|Backward(f)| - Remaining(q.pc)]
  }

  ghost predicate Broke(settles: bool, q: Proc) {
    exists f: nat :: BrokeAt(settles, q, f)
  }

  ghost predicate Scripted(settles: bool, q: Proc) {
    && ValidPc(Pipeline(settles), q.pc)
    && OwnEntries(q.payment.id, q.log) && FieldsDecide(q)
    && (GoesOn(settles, q) || Broke(settles, q))
  }

  lemma OpsAppend(log: seq<Entry>, e: Entry)
    ensures Ops(log + [e]) == Ops(log) + [e.op]
  {
  }

  lemma ScriptStep(settles: bool, n: nat)
    requires n < |Forward(settles)|
    ensures Forward(settles)[..n + 1] == Forward(settles)[..n] + [Forward(settles)[n]]
  {
  }

  /** A call that lets the saga go on. */
  lemma CallGoesOn(settles: bool, q: Proc, done: bool, ok: bool)
    requires ValidPc(Pipeline(settles), q.pc) && q.pc.Exec? && GoesOn(settles, q)
    requires ok || Position(settles, q.pc) >= Required(settles)
    ensures GoesOn(settles, Called(settles, q, RequestAt(Pipeline(settles), q.pc).op, done, ok))
  {
    ExecAt(settles, q.pc.k, q.pc.c);
    ForwardGoesOn(settles, q.pc.k, q.pc.c, ok);
    OpsAppend(q.log, Entry(q.payment.id, RequestAt(Pipeline(settles), q.pc).op, done, ok));
    ScriptStep(settles, Position(settles, q.pc));
  }

  /** A required call that fails. */
  lemma CallBreaks(settles: bool, q: Proc, done: bool)
    requires ValidPc(Pipeline(settles), q.pc) && q.pc.Exec? && GoesOn(settles, q)
    requires Position(settles, q.pc) < Required(settles)
    ensures BrokeAt(settles, Called(settles, q, RequestAt(Pipeline(settles), q.pc).op, done, false),
                    Position(settles, q.pc))
  {
    var n := Position(settles, q.pc);
    ExecAt(settles, q.pc.k, q.pc.c);
    ForwardBreaks(settles, q.pc.k, q.pc.c);
    OpsAppend(q.log, Entry(q.payment.id, RequestAt(Pipeline(settles), q.pc).op, done, false));
    ScriptStep(settles, n);
    assert Backward(n)[..0] == [];
  }

  /** One more call of the rollback. */
  lemma UndoStep(before: seq<Op>, f: nat, left: nat)
    requires 0 < left <= |Backward(f)|
    ensures var made := |Backward(f)| - left;
            before + Backward(f)[..made + 1] == (before + Backward(f)[..made]) + [UNDO[|UNDO| - left]]
  {
  }

  lemma UndoneLog(settles: bool, q: Proc, e: Entry, f: nat)
    requires BrokeAt(settles, q, f) && 0 < Remaining(q.pc) && e.op == UNDO[|UNDO| - Remaining(q.pc)]
    ensures var log, left := q.log + [e], Remaining(q.pc) - 1;
            && f < |log| && !log[f].ok && AllSeen(log, f)
            && Ops(log) == Forward(settles)[..f + 1] + Backward(f)[..|Backward(f)| - left]
  {
    OpsAppend(q.log, e);
    UndoStep(Forward(settles)[..f + 1], f, Remaining(q.pc));
  }

  /** A call of the rollback, whatever it meets. */
  lemma CallUndoes(settles: bool, q: Proc, done: bool, ok: bool, f: nat)
    requires ValidPc(Pipeline(settles), q.pc) && q.pc.Comp? && BrokeAt(settles, q, f)
    ensures BrokeAt(settles, Called(settles, q, RequestAt(Pipeline(settles), q.pc).op, done, ok), f)
  {
    BackwardNext(settles, q.pc.k, q.pc.c, ok);
    UndoneLog(settles, q, Entry(q.payment.id, RequestAt(Pipeline(settles), q.pc).op, done, ok), f);
  }

  lemma CallKeepsFields(settles: bool, q: Proc, done: bool, ok: bool)
    requires ValidPc(Pipeline(settles), q.pc) && !q.pc.Done? && FieldsDecide(q) && GoesOn(settles, q)
    requires RequestAt(Pipeline(settles), q.pc).op.CheckFields? ==> ok == ValidFields(q.payment)
    ensures FieldsDecide(Called(settles, q, RequestAt(Pipeline(settles), q.pc).op, done, ok))
  {
    ExecAt(settles, q.pc.k, q.pc.c);
  }

  lemma ForwardKeepsScript(settles: bool, q: Proc, done: bool, ok: bool)
    requires ValidPc(Pipeline(settles), q.pc) && !q.pc.Done? && GoesOn(settles, q)
    ensures var q' := Called(settles, q, RequestAt(Pipeline(settles), q.pc).op, done, ok);
            GoesOn(settles, q') || Broke(settles, q')
  {
    if ok || Position(settles, q.pc) >= Required(settles) {
      CallGoesOn(settles, q, done, ok);
    } else {
      CallBreaks(settles, q, done);
    }
  }

  lemma BackwardKeepsScript(settles: bool, q: Proc, done: bool, ok: bool)
    requires ValidPc(Pipeline(settles), q.pc) && !q.pc.Done? && Broke(settles, q)
    ensures Broke(settles, Called(settles, q, RequestAt(Pipeline(settles), q.pc).op, done, ok))
  {
    var f: nat :| BrokeAt(settles, q, f);
    CallUndoes(settles, q, done, ok, f);
  }

  /** Every call of a saga, whatever it meets, keeps to the script. */
  lemma CallKeepsScript(settles: bool, q: Proc, done: bool, ok: bool)
    requires Scripted(settles, q) && !q.pc.Done? && (ok ==> done)
    requires RequestAt(Pipeline(settles), q.pc).op.CheckFields? ==> ok == ValidFields(q.payment)
    ensures Scripted(settles, Called(settles, q, RequestAt(Pipeline(settles), q.pc).op, done, ok))
  {
    NextValid(Pipeline(settles), q.pc, ok);
    if GoesOn(settles, q) {
      CallKeepsFields(settles, q, done, ok);
      ForwardKeepsScript(settles, q, done, ok);
    } else {
      BackwardKeepsScript(settles, q, done, ok);
    }
  }

  /** Sagas that have not made a call. */
  predicate Unstarted(s: State) {
    forall i :: 0 <= i < |s.procs| ==> s.procs[i].pc == Exec(0, 0) && s.procs[i].log == []
  }

  ghost predicate AllScripted(settles: bool, s: State) {
    forall i :: 0 <= i < |s.procs| ==> Scripted(settles, s.procs[i])
  }

  lemma UnstartedIsScripted(settles: bool, q: Proc)
    requires q.pc == Exec(0, 0) && q.log == [] && ValidPc(Pipeline(settles), q.pc)
    ensures Scripted(settles, q)
  {
    assert Forward(settles)[..0] == [];
    assert GoesOn(settles, q);
  }

  /** In every interleaving every saga keeps to the script. */
  lemma {:induction false} RunKeepsScript(settles: bool, s0: State, schedule: seq<Action>)
    requires Unstarted(s0) && WellFormed(settles, s0)
    ensures AllScripted(settles, Run(settles, s0, schedule))
    decreases |schedule|
  {
    if schedule == [] {
      forall i | 0 <= i < |s0.procs| {
        UnstartedIsScripted(settles, s0.procs[i]);
      }
    } else {
      RunKeepsScript(settles, s0, schedule[..|schedule| - 1]);
      AdvanceKeepsScript(settles, Run(settles, s0, schedule[..|schedule| - 1]), schedule[|schedule| - 1]);
    }
  }

  lemma AdvanceKeepsScript(settles: bool, s: State, a: Action)
    requires WellFormed(settles, s) && AllScripted(settles, s)
    ensures AllScripted(settles, Advance(settles, s, a))
  {
    if a.who < |s.procs| && !s.procs[a.who].pc.Done? {
      var q := s.procs[a.who];
      var op := RequestAt(Pipeline(settles), q.pc).op;
      var done := Effect(op, q.payment, s.shared, a.turn).1;
      CallKeepsScript(settles, q, done, Seen(op, done, a.turn));
    }
  }

  // ------------------------------------------------------------ what the script says

  /** Entry i of a log is call i of the script, and so are those before it, of which the required ones succeeded. */
  predicate OnScript(settles: bool, log: seq<Entry>, i: nat) {
    && i < |log| && i < |Forward(settles)|
    && (forall j :: 0 <= j <= i ==> log[j].op == Forward(settles)[j])
    && (forall j :: 0 <= j < i && j < Required(settles) ==> log[j].ok)
  }

  /** Entry i belongs to a rollback; if it is a bank call it comes after twelve calls that succeeded. */
  predicate InRollback(settles: bool, log: seq<Entry>, i: nat) {
    && i < |log| && Undoes(log[i].op)
    && (log[i].op.BankCall? ==> i > 12 && OnScript(settles, log, 12))
  }

  lemma PrefixOnScript(settles: bool, log: seq<Entry>, n: nat, i: nat)
    requires i < n <= |Forward(settles)| && i < |log|
    requires forall j :: 0 <= j < n && j < |log| ==> log[j].op == Forward(settles)[j]
    requires AllSeen(log, if i < Required(settles) then i else Required(settles))
    ensures OnScript(settles, log, i)
  {
  }

  lemma OpsMatch(ops: seq<Op>, log: seq<Entry>, script: seq<Op>, n: nat)
    requires ops == Ops(log) && n <= |script| && script[..n] <= ops
    ensures forall j :: 0 <= j < n ==> log[j].op == script[j]
  {
    forall j | 0 <= j < n
      ensures log[j].op == script[j]
    {
      assert ops[j] == script[..n][j];
    }
  }

  lemma RollbackEntry(settles: bool, q: Proc, f: nat, i: nat)
    requires BrokeAt(settles, q, f) && f < i < |q.log|
    ensures InRollback(settles, q.log, i)
  {
    assert Ops(q.log)[i] == Backward(f)[i - f - 1];
    assert q.log[i].op == Backward(f)[i - f - 1];
    if q.log[i].op.BankCall? {
      assert f >= 12;
      OpsMatch(Ops(q.log), q.log, Forward(settles), f + 1);
      PrefixOnScript(settles, q.log, f + 1, 12);
    }
  }

  lemma EntryInPlace(settles: bool, q: Proc, i: nat)
    requires Scripted(settles, q) && i < |q.log|
    ensures OnScript(settles, q.log, i) || InRollback(settles, q.log, i)
  {
    if GoesOn(settles, q) {
      OpsMatch(Ops(q.log), q.log, Forward(settles), |q.log|);
      PrefixOnScript(settles, q.log, |q.log|, i);
    } else {
      var f: nat :| BrokeAt(settles, q, f);
      if i <= f {
        OpsMatch(Ops(q.log), q.log, Forward(settles), f + 1);
        PrefixOnScript(settles, q.log, f + 1, i);
      } else {
        RollbackEntry(settles, q, f, i);
      }
    }
  }

  /** What a call comes directly after, seen to succeed. */
  function Grounds(op: Op): Option<Op> {
    match op
    case WriteStatus(Validated) => Some(CheckFields)
    case WriteStatus(LookedUp) => Some(Remote(Directory))
    case WriteRoute => Some(Remote(Router))
    case WriteStatus(Quoted) => Some(Remote(Quoter))
    case WriteStatus(Screened) => Some(Remote(Compliance))
    case BankCall(Hold) => Some(WriteStatus(Screened))
    case MarkReserved => Some(BankCall(Bank.Hold))
    case BankCall(Deposit) => Some(MarkReserved)
    case WriteStatus(Committed) => Some(BankCall(Bank.Deposit))
    case Remote(Clearing) => Some(WriteStatus(Committed))
    case WriteStatus(Settled) => Some(Remote(Clearing))
    case _ => None
  }

  predicate GroundedAt(id: PaymentId, log: seq<Entry>, i: nat)
    requires i < |log|
  {
    Grounds(log[i].op).Some? ==> i > 0 && log[i - 1] == Entry(id, Grounds(log[i].op).value, true, true)
  }

  /** Every call that has grounds comes directly after them. */
  predicate Grounded(q: Proc) {
    forall i :: 0 <= i < |q.log| ==> GroundedAt(q.payment.id, q.log, i)
  }

  /** Statuses from SCREENED on, bank calls, and what comes after them. */
  predicate NeedsClearance(op: Op) {
    match op
    case BankCall(_) => true
    case WriteStatus(to) => to.Screened? || to.Committed? || to.Settled?
    case MarkReserved => true
    case Remote(service) => service.Clearing? || service.Reconciler? || service.Notifier?
    case _ => false
  }

  predicate ClearedBefore(q: Proc, i: nat)
    requires i <= |q.log|
  {
    exists j :: 0 <= j < i && q.log[j] == Entry(q.payment.id, Remote(Compliance), true, true)
  }

  /** Without clearance no SCREENED, no money and no success. */
  predicate OnlyWithClearance(q: Proc) {
    && (forall i :: 0 <= i < |q.log| && NeedsClearance(q.log[i].op) ==> ClearedBefore(q, i))
    && (q.pc == Done(true) ==> ClearedBefore(q, |q.log|))
  }

  /** A call whose failure is logged and dropped: the reconciliation record, a notification, or a compensation. */
  predicate Dropped(op: Op) {
    Undoes(op) || op == Remote(Reconciler) || op == Remote(Notifier)
  }

  /** The saga does not succeed, and after entry i it only compensates. */
  predicate StopsAfter(q: Proc, i: nat) {
    && !q.pc.Exec? && q.pc != Done(true)
    && forall j :: i < j < |q.log| ==> Undoes(q.log[j].op)
  }

  /** A call whose failure is not dropped is followed by compensations only, and the saga does not succeed. */
  predicate FailureIsFinal(q: Proc) {
    forall i :: 0 <= i < |q.log| && !q.log[i].ok && !Dropped(q.log[i].op) ==> StopsAfter(q, i)
  }

  /** A saga that has ended: it made all the calls, or all up to the first that failed and then its rollback. */
  ghost predicate EndsByScript(settles: bool, q: Proc) {
    && (q.pc == Done(true) ==> Ops(q.log) == Forward(settles) && AllSeen(q.log, Required(settles)))
    && (q.pc == Done(false) ==> exists f: nat :: FailedAt(settles, q, f))
    && (q.pc.Done? ==> (q.pc.ok <==> forall i :: 0 <= i < |q.log| && !q.log[i].ok ==> Dropped(q.log[i].op)))
  }

  predicate FailedAt(settles: bool, q: Proc, f: nat) {
    && f < Required(settles) && f < |q.log| && !q.log[f].ok && AllSeen(q.log, f)
    && Ops(q.log) == Forward(settles)[..f + 1] + Backward(f)
  }

  lemma GroundsInScript(settles: bool, i: nat)
    requires i < |Forward(settles)| && Grounds(Forward(settles)[i]).Some?
    ensures 0 < i <= Required(settles) && Forward(settles)[i - 1] == Grounds(Forward(settles)[i]).value
  {
  }

  lemma UndoHasNoGrounds(op: Op)
    requires Undoes(op)
    ensures Grounds(op) == None
  {
  }

  lemma EntryGrounded(settles: bool, id: PaymentId, log: seq<Entry>, i: nat)
    requires OwnEntries(id, log) && OnScript(settles, log, i)
    ensures GroundedAt(id, log, i)
  {
    if Grounds(log[i].op).Some? {
      GroundsInScript(settles, i);
    }
  }

  lemma ScriptedIsGrounded(settles: bool, q: Proc)
    requires Scripted(settles, q)
    ensures Grounded(q)
  {
    forall i | 0 <= i < |q.log|
      ensures GroundedAt(q.payment.id, q.log, i)
    {
      EntryInPlace(settles, q, i);
      if OnScript(settles, q.log, i) {
        EntryGrounded(settles, q.payment.id, q.log, i);
      } else {
        UndoHasNoGrounds(q.log[i].op);
      }
    }
  }

  lemma ClearanceInScript(settles: bool, i: nat)
    requires i < |Forward(settles)| && NeedsClearance(Forward(settles)[i])
    ensures i > 8 && Forward(settles)[8] == Remote(Compliance)
  {
  }

  lemma EntryCleared(settles: bool, q: Proc, i: nat)
    requires OwnEntries(q.payment.id, q.log) && OnScript(settles, q.log, i) && i > 8
    ensures ClearedBefore(q, i)
  {
    assert q.log[8] == Entry(q.payment.id, Remote(Compliance), true, true);
  }

  lemma EntryNeedsClearance(settles: bool, q: Proc, i: nat)
    requires Scripted(settles, q) && i < |q.log| && NeedsClearance(q.log[i].op)
    ensures ClearedBefore(q, i)
  {
    EntryInPlace(settles, q, i);
    if OnScript(settles, q.log, i) {
      ClearanceInScript(settles, i);
      EntryCleared(settles, q, i);
    } else {
      EntryCleared(settles, q, 12);
    }
  }

  lemma ScriptedIsCleared(settles: bool, q: Proc)
    requires Scripted(settles, q)
    ensures OnlyWithClearance(q)
  {
    forall i | 0 <= i < |q.log| && NeedsClearance(q.log[i].op)
      ensures ClearedBefore(q, i)
    {
      EntryNeedsClearance(settles, q, i);
    }
    if q.pc == Done(true) {
      var n := |q.log| - 1;
      OpsMatch(Ops(q.log), q.log, Forward(settles), n + 1);
      assert q.log[n].op == Remote(Notifier);
      EntryNeedsClearance(settles, q, n);
    }
  }

  /** What follows a failure that is not dropped. */
  lemma FailureStops(settles: bool, q: Proc, i: nat)
    requires Scripted(settles, q) && i < |q.log| && !q.log[i].ok && !Dropped(q.log[i].op)
    ensures BrokeAt(settles, q, i)
  {
    if GoesOn(settles, q) {
      OpsMatch(Ops(q.log), q.log, Forward(settles), |q.log|);
      DroppedInScript(settles, i);
    } else {
      var f: nat :| BrokeAt(settles, q, f);
      if f < i {
        RollbackEntry(settles, q, f, i);
      }
    }
  }

  lemma DroppedInScript(settles: bool, i: nat)
    requires i < |Forward(settles)|
    ensures Dropped(Forward(settles)[i]) <==> i >= Required(settles)
  {
  }

  lemma BrokeStops(settles: bool, q: Proc, f: nat)
    requires BrokeAt(settles, q, f)
    ensures StopsAfter(q, f)
  {
    forall j | f < j < |q.log|
      ensures Undoes(q.log[j].op)
    {
      RollbackEntry(settles, q, f, j);
    }
  }

  lemma ScriptedIsFinal(settles: bool, q: Proc)
    requires Scripted(settles, q)
    ensures FailureIsFinal(q)
  {
    forall i | 0 <= i < |q.log| && !q.log[i].ok && !Dropped(q.log[i].op)
      ensures StopsAfter(q, i)
    {
      FailureStops(settles, q, i);
      BrokeStops(settles, q, i);
    }
  }

  /** A saga that succeeded saw every required call succeed. */
  lemma SuccessSawAll(settles: bool, q: Proc)
    requires Scripted(settles, q) && q.pc == Done(true)
    ensures Ops(q.log) == Forward(settles) && AllSeen(q.log, Required(settles))
    ensures forall i :: 0 <= i < |q.log| && !q.log[i].ok ==> Dropped(q.log[i].op)
  {
    ScriptedIsFinal(settles, q);
  }

  /** A saga that failed did so at a required call. */
  lemma FailureHasCause(settles: bool, q: Proc) returns (f: nat)
    requires Scripted(settles, q) && q.pc == Done(false)
    ensures FailedAt(settles, q, f) && !Dropped(q.log[f].op)
  {
    f :| BrokeAt(settles, q, f);
    assert Backward(f)[..|Backward(f)|] == Backward(f);
    OpsMatch(Ops(q.log), q.log, Forward(settles), f + 1);
    DroppedInScript(settles, f);
  }

  lemma ScriptedEnds(settles: bool, q: Proc)
    requires Scripted(settles, q)
    ensures EndsByScript(settles, q)
  {
    if q.pc == Done(true) {
      SuccessSawAll(settles, q);
    } else if q.pc == Done(false) {
      var f := FailureHasCause(settles, q);
    }
  }

  // ------------------------------------------------------------ the theorems

  /**
   * In every interleaving, whatever fails, for every saga: each status is written directly after the answer
   * that grounds it; nothing from SCREENED on, no bank call and no success comes without the clearance of the
   * compliance service; the first required call that fails is followed by compensations only and the saga
   * fails; and when it has ended its calls are exactly the script, or the script up to that call and then its
   * rollback. Validation passes exactly for a payment whose fields are filled in.
   */
  lemma {:induction false} EveryCallIsGrounded(settles: bool, s0: State, schedule: seq<Action>, i: nat)
    requires Unstarted(s0) && WellFormed(settles, s0) && i < |Run(settles, s0, schedule).procs|
    ensures var q := Run(settles, s0, schedule).procs[i];
            && Grounded(q) && OnlyWithClearance(q) && FailureIsFinal(q) && EndsByScript(settles, q)
            && FieldsDecide(q)
  {
    RunKeepsScript(settles, s0, schedule);
    var q := Run(settles, s0, schedule).procs[i];
    ScriptedIsGrounded(settles, q);
    ScriptedIsCleared(settles, q);
    ScriptedIsFinal(settles, q);
    ScriptedEnds(settles, q);
  }

  /** The same for one call of Saga.Run, under every failure schedule. */
  lemma {:induction false} RunIsGrounded(settles: bool, p: Payment, o: Oracle, shared: Shared)
    ensures var run := RunFrom(Wired(settles, o), 0, p, World(shared, []));
            var q := Proc(p, Done(run.ok), run.world.log);
            && Grounded(q) && OnlyWithClearance(q) && FailureIsFinal(q) && EndsByScript(settles, q)
            && FieldsDecide(q)
  {
    var w := World(shared, []);
    var run := RunFrom(Wired(settles, o), 0, p, w);
    RunRefines(settles, p, o, w, 0);
    var s := Alone(p, w, Exec(0, 0));
    assert Run(settles, s, Solo(o, 0, |run.world.log|)) == Alone(p, run.world, Done(run.ok));
    EveryCallIsGrounded(settles, s, Solo(o, 0, |run.world.log|), 0);
  }
}
