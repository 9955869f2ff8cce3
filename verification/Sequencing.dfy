/** The status writes that record money come directly after the bank call they record, in every run. */
module Sequencing {
  import opened Domain
  import opened SagaCore
  import opened Steps
  import opened Interleaving
  import opened Conservation
  import opened LoneRun
  import Bank

  /** Line i of a log, if it is one of the two money-recording writes, follows its successful bank call. */
  predicate RecordsCall(log: seq<Entry>, id: PaymentId, i: nat)
    requires i < |log|
  {
    && (log[i].op == MarkReserved ==> i > 0 && log[i - 1] == Entry(id, BankCall(Bank.Hold), true, true))
    && (log[i].op == WriteStatus(Committed) ==>
          i > 0 && log[i - 1] == Entry(id, BankCall(Bank.Deposit), true, true))
  }

  predicate InSequence(q: Proc) {
    forall i: nat :: i < |q.log| ==> RecordsCall(q.log, q.payment.id, i)
  }

  predicate EndsWith(q: Proc, op: Op) {
    q.log != [] && q.log[|q.log| - 1] == Entry(q.payment.id, op, true, true)
  }

  /** A saga about to make one of these writes has just made the bank call. */
  predicate SequenceInv(q: Proc) {
    && InSequence(q)
    && (q.pc == Exec(5, 1) ==> EndsWith(q, BankCall(Bank.Hold)))
    && (q.pc == Exec(6, 1) ==> EndsWith(q, BankCall(Bank.Deposit)))
  }

  /** The second call of an Execute comes right after its first, which succeeded if it had to. */
  lemma SecondCall(kinds: seq<StepKind>, pc: Pc, ok: bool, k: nat)
    requires ValidPc(kinds, pc) && !pc.Done? && Next(kinds, pc, ok) == Exec(k, 1)
    ensures pc == Exec(k, 0) && (RequestAt(kinds, pc).Must? ==> ok)
  {
    CompFromValid(kinds, pc.k);
  }

  lemma {:induction false} AppendInSequence(q: Proc, e: Entry, pc: Pc)
    requires InSequence(q) && RecordsCall(q.log + [e], q.payment.id, |q.log|)
    ensures InSequence(Proc(q.payment, pc, q.log + [e]))
  {
    forall i: nat | i < |q.log| + 1
      ensures RecordsCall(q.log + [e], q.payment.id, i)
    {
      assert i < |q.log| ==> RecordsCall(q.log, q.payment.id, i);
    }
  }

  lemma CallKeepsSequence(settles: bool, q: Proc, done: bool, ok: bool)
    requires ValidPc(Pipeline(settles), q.pc) && !q.pc.Done? && SequenceInv(q) && (ok ==> done)
    ensures SequenceInv(Called(settles, q, RequestAt(Pipeline(settles), q.pc).op, done, ok))
  {
    var kinds := Pipeline(settles);
    var op, next := RequestAt(kinds, q.pc).op, Next(kinds, q.pc, ok);
    PipelineShape(settles);
    if q.pc.Exec? {
      ForwardMove(settles, q.pc.k, q.pc.c, ok);
    } else {
      BackwardMove(settles, q.pc.k, q.pc.c, ok);
    }
    AppendInSequence(q, Entry(q.payment.id, op, done, ok), next);
    if next == Exec(5, 1) {
      SecondCall(kinds, q.pc, ok, 5);
    } else if next == Exec(6, 1) {
      SecondCall(kinds, q.pc, ok, 6);
    }
  }

  predicate AllInSequence(s: State) {
    forall i :: 0 <= i < |s.procs| ==> SequenceInv(s.procs[i])
  }

  /**
   * In every interleaving, each reservation mark and each COMMITTED write, successful or failed, is
   * made directly after the bank call it records was seen to succeed. So an unconfirmed one is exactly
   * the case of money that moved without a record the saga knows of.
   */
  lemma {:induction false} WritesFollowTheirBankCalls(settles: bool, s0: State, schedule: seq<Action>)
    requires Fresh(s0) && WellFormed(settles, s0)
    ensures AllInSequence(Run(settles, s0, schedule))
    decreases |schedule|
  {
    if schedule != [] {
      var s, a := Run(settles, s0, schedule[..|schedule| - 1]), schedule[|schedule| - 1];
      WritesFollowTheirBankCalls(settles, s0, schedule[..|schedule| - 1]);
      if a.who < |s.procs| && !s.procs[a.who].pc.Done? {
        var q := s.procs[a.who];
        var op := RequestAt(Pipeline(settles), q.pc).op;
        var done := Effect(op, q.payment, s.shared, a.turn).1;
        CallKeepsSequence(settles, q, done, Seen(op, done, a.turn));
      }
    }
  }

  /** The same for one call of Saga.Run, under every failure schedule. */
  lemma {:induction false} RunWritesFollowBankCalls(settles: bool, p: Payment, o: Oracle, shared: Shared)
    requires Bank.Solvent(shared.book)
    ensures var run := RunFrom(Wired(settles, o), 0, p, World(shared, []));
            InSequence(Proc(p, Done(run.ok), run.world.log))
  {
    var w := World(shared, []);
    var run := RunFrom(Wired(settles, o), 0, p, w);
    RunRefines(settles, p, o, w, 0);
    var s := Alone(p, w, Exec(0, 0));
    FreshWellFormed(settles, s);
    WritesFollowTheirBankCalls(settles, s, Solo(o, 0, |run.world.log|));
    assert SequenceInv(Alone(p, run.world, Done(run.ok)).procs[0]);
  }
}
