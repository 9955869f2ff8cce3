/**
 * Any number of sagas over one bank and one repository, interleaved call by call in every order,
 * with the environment free to fail any call.
 */
module Interleaving {
  import opened Domain
  import opened Steps
  import Bank

  /** Where a saga stands: about to make call c of step k, forwards or backwards, or finished. */
  datatype Pc = Exec(k: nat, c: nat) | Comp(k: nat, c: nat) | Done(ok: bool)

  datatype Proc = Proc(payment: Payment, pc: Pc, log: seq<Entry>)

  datatype State = State(shared: Shared, procs: seq<Proc>)

  /** One scheduling decision: which saga moves, and what its call meets. */
  datatype Action = Action(who: nat, turn: Turn)

  function ExecFrom(kinds: seq<StepKind>, k: nat): Pc {
    if k < |kinds| then Exec(k, 0) else Done(true)
  }

  /** The next compensation that makes a call, among steps k-1 down to 0. */
  function CompFrom(kinds: seq<StepKind>, k: nat): Pc
    requires k <= |kinds|
  {
    if k == 0 then Done(false)
    else if CompCalls(kinds[k - 1]) == [] then CompFrom(kinds, k - 1)
    else Comp(k - 1, 0)
  }

  predicate ValidPc(kinds: seq<StepKind>, pc: Pc) {
    match pc
    case Exec(k, c) => k < |kinds| && c < |ExecCalls(kinds[k])|
    case Comp(k, c) => k < |kinds| && c < |CompCalls(kinds[k])|
    case Done(_) => true
  }

  function RequestAt(kinds: seq<StepKind>, pc: Pc): Request
    requires ValidPc(kinds, pc) && !pc.Done?
  {
    match pc
    case Exec(k, c) => ExecCalls(kinds[k])[c]
    case Comp(k, c) => CompCalls(kinds[k])[c]
  }

  /** A failed mandatory call ends its step: forwards it starts the rollback, backwards it is dropped. */
  function Next(kinds: seq<StepKind>, pc: Pc, ok: bool): (next: Pc)
    requires ValidPc(kinds, pc) && !pc.Done?
  {
    var broken := RequestAt(kinds, pc).Must? && !ok;
    match pc
    case Exec(k, c) =>
      if broken then CompFrom(kinds, k)
      else if c + 1 < |ExecCalls(kinds[k])| then Exec(k, c + 1)
      else ExecFrom(kinds, k + 1)
    case Comp(k, c) =>
      if !broken && c + 1 < |CompCalls(kinds[k])| then Comp(k, c + 1) else CompFrom(kinds, k)
  }

  predicate WellFormed(settles: bool, s: State) {
    forall i :: 0 <= i < |s.procs| ==> ValidPc(Pipeline(settles), s.procs[i].pc)
  }

  /** The saga after a call that took effect or not, and that it saw succeed or not. */
  function Called(settles: bool, q: Proc, op: Op, done: bool, ok: bool): Proc
    requires ValidPc(Pipeline(settles), q.pc) && !q.pc.Done?
  {
    Logging(q, op, done, ok, Next(Pipeline(settles), q.pc, ok))
  }

  function Logging(q: Proc, op: Op, done: bool, ok: bool, next: Pc): Proc {
    Proc(q.payment, next, q.log + [Entry(q.payment.id, op, done, ok)])
  }

  function Advance(settles: bool, s: State, a: Action): State
    requires WellFormed(settles, s)
  {
    if a.who >= |s.procs| || s.procs[a.who].pc.Done? then s
    else
      var q := s.procs[a.who];
      var op := RequestAt(Pipeline(settles), q.pc).op;
      var (shared, done) := Effect(op, q.payment, s.shared, a.turn);
      State(shared, s.procs[a.who := Called(settles, q, op, done, Seen(op, done, a.turn))])
  }

  /** The state after a whole schedule. */
  function Run(settles: bool, s: State, schedule: seq<Action>): (r: State)
    requires WellFormed(settles, s)
    ensures WellFormed(settles, r)
  {
    if schedule == [] then s
    else
      var before := Run(settles, s, schedule[..|schedule| - 1]);
      AdvanceWellFormed(settles, before, schedule[|schedule| - 1]);
      Advance(settles, before, schedule[|schedule| - 1])
  }

  lemma {:induction false} CompFromValid(kinds: seq<StepKind>, k: nat)
    requires k <= |kinds|
    ensures ValidPc(kinds, CompFrom(kinds, k))
    ensures !CompFrom(kinds, k).Exec? && CompFrom(kinds, k) != Done(true)
    ensures (CompFrom(kinds, k).Comp? ==> CompFrom(kinds, k).k < k)
    decreases k
  {
    if k > 0 {
      CompFromValid(kinds, k - 1);
    }
  }

  lemma NextValid(kinds: seq<StepKind>, pc: Pc, ok: bool)
    requires ValidPc(kinds, pc) && !pc.Done?
    requires forall kind :: ExecCalls(kind) != []
    ensures ValidPc(kinds, Next(kinds, pc, ok))
  {
    CompFromValid(kinds, pc.k);
  }

  lemma AdvanceWellFormed(settles: bool, s: State, a: Action)
    requires WellFormed(settles, s)
    ensures WellFormed(settles, Advance(settles, s, a))
  {
    if a.who < |s.procs| && !s.procs[a.who].pc.Done? {
      forall ok {
        NextValid(Pipeline(settles), s.procs[a.who].pc, ok);
      }
    }
  }

  // ------------------------------------------------------------ one saga's money

  /** What the successful bank calls in a log add up to, on the source or on the destination side. */
  function Flow(log: seq<Entry>, amount: int, source: bool): int {
    if log == [] then 0
    else
      var e := log[|log| - 1];
      Flow(log[..|log| - 1], amount, source) +
      if e.done && e.op.BankCall? && source == (e.op.operation.Hold? || e.op.operation.Release?)
      then Bank.Delta(e.op.operation, amount)
      else 0
  }

  function Net(q: Proc): int {
    Flow(q.log, q.payment.amount, true) + Flow(q.log, q.payment.amount, false)
  }

  predicate Logged(q: Proc, op: Op, done: bool, ok: bool) {
    Entry(q.payment.id, op, done, ok) in q.log
  }

  /** The caller did not see the call succeed, whether it took effect or not. */
  predicate Unconfirmed(q: Proc, op: Op) {
    Logged(q, op, false, false) || Logged(q, op, true, false)
  }

  /**
   * The source side lost money: a hold whose answer was lost, a hold whose recording was not confirmed,
   * or a release that did not take effect.
   */
  predicate SourceLeaked(q: Proc) {
    || Logged(q, BankCall(Bank.Hold), true, false)
    || Unconfirmed(q, MarkReserved)
    || Logged(q, BankCall(Bank.Release), false, false)
  }

  /** The destination side gained money: the same for the credit, its recording and its reversal. */
  predicate DestLeaked(q: Proc) {
    || Logged(q, BankCall(Bank.Deposit), true, false)
    || Unconfirmed(q, WriteStatus(Committed))
    || Logged(q, BankCall(Bank.Withdraw), false, false)
  }

  function SourceLeak(q: Proc): int {
    if SourceLeaked(q) then q.payment.amount else 0
  }

  function DestLeak(q: Proc): int {
    if DestLeaked(q) then q.payment.amount else 0
  }

  /** The saga is answerable for the hold on its source: it took it and has yet to give it back. */
  predicate OwesSource(pc: Pc) {
    match pc
    case Exec(k, c) => k > 5 || (k == 5 && c > 0)
    case Comp(k, c) => k > 5 || (k == 5 && c == 0)
    case Done(ok) => ok
  }

  predicate OwesDest(pc: Pc) {
    match pc
    case Exec(k, c) => k > 6 || (k == 6 && c > 0)
    case Comp(k, c) => k > 6 || (k == 6 && c == 0)
    case Done(ok) => ok
  }

  /** A saga's program counter and its leaks account for all its bank calls. */
  predicate MoneyInv(q: Proc) {
    && Flow(q.log, q.payment.amount, true) == -(if OwesSource(q.pc) then q.payment.amount else 0) - SourceLeak(q)
    && Flow(q.log, q.payment.amount, false) == (if OwesDest(q.pc) then q.payment.amount else 0) + DestLeak(q)
    && (q.pc.Exec? || OwesSource(q.pc) ==> !SourceLeaked(q))
    && (q.pc.Exec? || OwesDest(q.pc) ==> !DestLeaked(q))
  }

  /** Money moved without its record, or was not moved back. */
  predicate Leaked(q: Proc) {
    SourceLeaked(q) || DestLeaked(q)
  }

  predicate ProcInv(settles: bool, q: Proc) {
    && ValidPc(Pipeline(settles), q.pc)
    && (q.pc == Exec(0, 0) || q.pc == Done(false) || ValidFields(q.payment))
    && (ValidFields(q.payment) || !Leaked(q))
    && MoneyInv(q)
  }

  lemma PipelineShape(settles: bool)
    ensures var kinds := Pipeline(settles);
            && 9 <= |kinds| <= 10
            && kinds[..7] == [Validate, Lookup, Route, Quote, Screen, Reserve, Commit]
            && (forall k :: 0 <= k < |kinds| ==> (kinds[k].Validate? <==> k == 0))
            && (forall k :: 0 <= k < |kinds| ==> (kinds[k].Reserve? <==> k == 5))
            && (forall k :: 0 <= k < |kinds| ==> (kinds[k].Commit? <==> k == 6))
  {
  }

  /** The rollback of k completed steps owes exactly what those k steps took. */
  lemma {:induction false} CompFromOwes(settles: bool, k: nat)
    requires k <= |Pipeline(settles)|
    ensures OwesSource(CompFrom(Pipeline(settles), k)) <==> k > 5
    ensures OwesDest(CompFrom(Pipeline(settles), k)) <==> k > 6
    ensures k == 0 ==> CompFrom(Pipeline(settles), k) == Done(false)
  {
    var kinds := Pipeline(settles);
    PipelineShape(settles);
    CompFromValid(kinds, k);
    if k > 7 {
      CompFromOwes(settles, k - 1);
    } else if 5 < k {
      assert CompCalls(kinds[k - 1]) != [];
    }
  }

  lemma {:induction false} FlowAppend(log: seq<Entry>, e: Entry, amount: int, source: bool)
    ensures Flow(log + [e], amount, source) == Flow(log, amount, source) +
      if e.done && e.op.BankCall? && source == (e.op.operation.Hold? || e.op.operation.Release?)
      then Bank.Delta(e.op.operation, amount)
      else 0
  {
    assert (log + [e])[..|log|] == log;
  }

  /** The control points of the wired pipeline that matter to money, and what the next one owes. */
  predicate MoneyMove(pc: Pc, op: Op, ok: bool, next: Pc) {
    && (op == BankCall(Bank.Hold) <==> pc == Exec(5, 0))
    && (op == MarkReserved <==> pc == Exec(5, 1))
    && (op == BankCall(Bank.Deposit) <==> pc == Exec(6, 0))
    && (op == WriteStatus(Committed) <==> pc == Exec(6, 1))
    && (op == BankCall(Bank.Release) <==> pc == Comp(5, 0))
    && (op == BankCall(Bank.Withdraw) <==> pc == Comp(6, 0))
    && (op == CheckFields <==> pc == Exec(0, 0))
    && (OwesSource(next) <==>
          if pc == Exec(5, 0) || pc == Exec(5, 1) then ok else OwesSource(pc) && pc != Comp(5, 0))
    && (OwesDest(next) <==>
          if pc == Exec(6, 0) || pc == Exec(6, 1) then ok else OwesDest(pc) && pc != Comp(6, 0))
    && (next.Exec? ==> pc.Exec? && (pc.k == 5 || pc.k == 6 ==> ok))
    && next != Exec(0, 0)
    && (pc == Exec(0, 0) && !ok ==> next == Done(false))
    && (next == Done(true) ==> pc.Exec?)
  }

  /** Where the calls of a step before the reservation lead. */
  lemma EarlyMove(settles: bool, k: nat, c: nat, ok: bool)
    requires ValidPc(Pipeline(settles), Exec(k, c)) && k < 5
    ensures var kinds := Pipeline(settles);
            MoneyMove(Exec(k, c), RequestAt(kinds, Exec(k, c)).op, ok, Next(kinds, Exec(k, c), ok))
  {
    var kinds := Pipeline(settles);
    PipelineShape(settles);
    CompFromValid(kinds, k);
    CompFromOwes(settles, k);
    assert kinds[k] == kinds[..7][k];
  }

  /** Where the calls of a step after the commit lead. */
  lemma LateMove(settles: bool, k: nat, c: nat, ok: bool)
    requires ValidPc(Pipeline(settles), Exec(k, c)) && k > 6
    ensures var kinds := Pipeline(settles);
            MoneyMove(Exec(k, c), RequestAt(kinds, Exec(k, c)).op, ok, Next(kinds, Exec(k, c), ok))
  {
    CompFromValid(Pipeline(settles), k);
    CompFromOwes(settles, k);
  }

  lemma ForwardMove(settles: bool, k: nat, c: nat, ok: bool)
    requires ValidPc(Pipeline(settles), Exec(k, c))
    ensures var kinds := Pipeline(settles);
            MoneyMove(Exec(k, c), RequestAt(kinds, Exec(k, c)).op, ok, Next(kinds, Exec(k, c), ok))
  {
    var kinds := Pipeline(settles);
    if k < 5 {
      EarlyMove(settles, k, c, ok);
    } else if k > 6 {
      LateMove(settles, k, c, ok);
    } else {
      PipelineShape(settles);
      CompFromValid(kinds, k);
      CompFromOwes(settles, k);
      if k == 5 {
        assert ExecCalls(kinds[k]) == [Must(BankCall(Bank.Hold)), Must(MarkReserved)];
      } else {
        assert ExecCalls(kinds[k]) == [Must(BankCall(Bank.Deposit)), Must(WriteStatus(Committed))];
      }
    }
  }

  lemma BackwardMove(settles: bool, k: nat, c: nat, ok: bool)
    requires ValidPc(Pipeline(settles), Comp(k, c))
    ensures var kinds := Pipeline(settles);
            MoneyMove(Comp(k, c), RequestAt(kinds, Comp(k, c)).op, ok, Next(kinds, Comp(k, c), ok))
  {
    var kinds := Pipeline(settles);
    PipelineShape(settles);
    CompFromValid(kinds, k);
    CompFromOwes(settles, k);
    assert k < 7 ==> kinds[k] == kinds[..7][k];
  }

  lemma LoggedAppend(q: Proc, op: Op, done: bool, ok: bool, next: Pc, op': Op, done': bool, ok': bool)
    ensures Logged(Logging(q, op, done, ok, next), op', done', ok')
       <==> Logged(q, op', done', ok') || (op == op' && done == done' && ok == ok')
  {
  }

  lemma SourceLeakedAppend(q: Proc, op: Op, done: bool, ok: bool, next: Pc)
    ensures SourceLeaked(Logging(q, op, done, ok, next)) <==>
            || SourceLeaked(q)
            || (op == BankCall(Bank.Hold) && done && !ok)
            || (op == MarkReserved && !ok)
            || (op == BankCall(Bank.Release) && !done && !ok)
  {
    LoggedAppend(q, op, done, ok, next, BankCall(Bank.Hold), true, false);
    LoggedAppend(q, op, done, ok, next, MarkReserved, false, false);
    LoggedAppend(q, op, done, ok, next, MarkReserved, true, false);
    LoggedAppend(q, op, done, ok, next, BankCall(Bank.Release), false, false);
  }

  lemma DestLeakedAppend(q: Proc, op: Op, done: bool, ok: bool, next: Pc)
    ensures DestLeaked(Logging(q, op, done, ok, next)) <==>
            || DestLeaked(q)
            || (op == BankCall(Bank.Deposit) && done && !ok)
            || (op == WriteStatus(Committed) && !ok)
            || (op == BankCall(Bank.Withdraw) && !done && !ok)
  {
    LoggedAppend(q, op, done, ok, next, BankCall(Bank.Deposit), true, false);
    LoggedAppend(q, op, done, ok, next, WriteStatus(Committed), false, false);
    LoggedAppend(q, op, done, ok, next, WriteStatus(Committed), true, false);
    LoggedAppend(q, op, done, ok, next, BankCall(Bank.Withdraw), false, false);
  }

  lemma MoveKeepsSourceInv(q: Proc, op: Op, done: bool, ok: bool, next: Pc)
    requires MoneyInv(q) && MoneyMove(q.pc, op, ok, next) && (ok ==> done)
    ensures var q' := Logging(q, op, done, ok, next);
            && Flow(q'.log, q.payment.amount, true)
               == -(if OwesSource(next) then q.payment.amount else 0) - SourceLeak(q')
            && (next.Exec? || OwesSource(next) ==> !SourceLeaked(q'))
  {
    FlowAppend(q.log, Entry(q.payment.id, op, done, ok), q.payment.amount, true);
    SourceLeakedAppend(q, op, done, ok, next);
  }

  lemma MoveKeepsDestInv(q: Proc, op: Op, done: bool, ok: bool, next: Pc)
    requires MoneyInv(q) && MoneyMove(q.pc, op, ok, next) && (ok ==> done)
    ensures var q' := Logging(q, op, done, ok, next);
            && Flow(q'.log, q.payment.amount, false)
               == (if OwesDest(next) then q.payment.amount else 0) + DestLeak(q')
            && (next.Exec? || OwesDest(next) ==> !DestLeaked(q'))
  {
    FlowAppend(q.log, Entry(q.payment.id, op, done, ok), q.payment.amount, false);
    DestLeakedAppend(q, op, done, ok, next);
  }

  /** Every call of a saga, successful or not, keeps its invariant. */
  lemma CallKeepsProcInv(settles: bool, q: Proc, done: bool, ok: bool)
    requires ProcInv(settles, q) && !q.pc.Done? && (ok ==> done)
    requires RequestAt(Pipeline(settles), q.pc).op.CheckFields? ==> ok == ValidFields(q.payment)
    ensures ProcInv(settles, Called(settles, q, RequestAt(Pipeline(settles), q.pc).op, done, ok))
  {
    var kinds := Pipeline(settles);
    var op, next := RequestAt(kinds, q.pc).op, Next(kinds, q.pc, ok);
    if q.pc.Exec? {
      ForwardMove(settles, q.pc.k, q.pc.c, ok);
    } else {
      BackwardMove(settles, q.pc.k, q.pc.c, ok);
    }
    NextValid(kinds, q.pc, ok);
    MoveKeepsSourceInv(q, op, done, ok, next);
    MoveKeepsDestInv(q, op, done, ok, next);
    SourceLeakedAppend(q, op, done, ok, next);
    DestLeakedAppend(q, op, done, ok, next);
  }
}
