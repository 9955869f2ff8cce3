/** A run that loses money: the hold is taken and its recording does not get through. */
module Leaking {
  import opened Domain
  import opened SagaCore
  import opened Steps
  import opened Recovery
  import opened Sweep
  import opened SweepRounds
  import Bank
  import Interleaving
  import Repository

  /** The steps before the reservation, when their two calls are answered. */
  predicate Early(kind: StepKind) {
    kind.Validate? || kind.Lookup? || kind.Route? || kind.Quote? || kind.Screen?
  }

  /** Two calls for p got through and left the book alone. */
  predicate Passed(p: Payment, w: World, w': World) {
    Known(w'.shared, p) && w'.shared.book == w.shared.book && |w'.log| == |w.log| + 2
  }

  /** A write that gets through. */
  lemma WritePasses(op: Op, p: Payment, w: World, o: Oracle)
    requires Known(w.shared, p) && (op.WriteStatus? || op.WriteRoute?) && Confirmed(o(|w.log|))
    ensures var (w', ok) := Invoke(op, p, w, o);
            ok && Known(w'.shared, p) && w'.shared.book == w.shared.book && |w'.log| == |w.log| + 1
  {
    Repository.TransactKeepsValid(w.shared.tables, ChangeOf(op, p, o(|w.log|).at), true);
  }

  lemma EarlyStepPasses(kind: StepKind, p: Payment, w: World, o: Oracle)
    requires Early(kind) && Known(w.shared, p) && ValidFields(p)
    requires Confirmed(o(|w.log|)) && Confirmed(o(|w.log| + 1))
    ensures var (w', ok) := RunCalls(ExecCalls(kind), 0, p, w, o);
            ok && Passed(p, w, w')
  {
    var calls := ExecCalls(kind);
    RunTwo(calls, p, w, o);
    var w1 := Invoke(calls[0].op, p, w, o).0;
    assert w1.shared == w.shared;
    WritePasses(calls[1].op, p, w1, o);
  }

  /** Steps whose first five pass when their calls are answered. */
  ghost predicate PassLike(steps: seq<Step<Payment, World>>, o: Oracle, p: Payment) {
    && 5 <= |steps|
    && forall i: nat, v: World {:trigger steps[i].exec(p, v)} ::
         i < 5 && Known(v.shared, p) && Confirmed(o(|v.log|)) && Confirmed(o(|v.log| + 1)) ==>
           steps[i].exec(p, v).1 && Passed(p, v, steps[i].exec(p, v).0)
  }

  lemma WiredPassLike(settles: bool, o: Oracle, p: Payment)
    requires ValidFields(p)
    ensures PassLike(Wired(settles, o), o, p)
  {
    var steps := Wired(settles, o);
    Interleaving.PipelineShape(settles);
    forall i: nat, v: World | i < 5 && Known(v.shared, p) && Confirmed(o(|v.log|)) && Confirmed(o(|v.log| + 1))
      ensures steps[i].exec(p, v).1 && Passed(p, v, steps[i].exec(p, v).0)
    {
      assert Pipeline(settles)[i] == Pipeline(settles)[..7][i];
      EarlyStepPasses(Pipeline(settles)[i], p, v, o);
    }
  }

  /** The first k steps of a run whose calls are answered. */
  lemma {:induction false} EarlyStepsPass(steps: seq<Step<Payment, World>>, o: Oracle, p: Payment, w: World, k: nat)
    requires k <= 5 && PassLike(steps, o, p) && Known(w.shared, p) && w.log == []
    requires forall n: nat :: n < 10 ==> Confirmed(o(n))
    ensures Succeed(steps, k, p, w)
    ensures var w' := After(steps, k, p, w);
            Known(w'.shared, p) && w'.shared.book == w.shared.book && |w'.log| == 2 * k
    decreases k
  {
    if k > 0 {
      EarlyStepsPass(steps, o, p, w, k - 1);
      var before := After(steps, k - 1, p, w);
      assert Confirmed(o(|before.log|)) && Confirmed(o(|before.log| + 1));
      assert steps[k - 1].exec(p, before).1;
    }
  }

  /** The hold is taken, and its mark does not get through. */
  lemma ReserveLosesMark(p: Payment, w: World, o: Oracle)
    requires Confirmed(o(|w.log|)) && !o(|w.log| + 1).reachable
    requires Bank.Accepts(w.shared.book, Bank.Hold, p.sourceAccount, p.amount)
    ensures var (w', ok) := RunCalls(ExecCalls(Reserve), 0, p, w, o);
            && !ok && |w'.log| == |w.log| + 2
            && w'.shared == w.shared.(book := Bank.Apply(w.shared.book, Bank.Hold, p.sourceAccount, p.amount))
  {
    RunTwo(ExecCalls(Reserve), p, w, o);
  }

  lemma EarlyCompensationKeepsBook(kind: StepKind, p: Payment, w: World, o: Oracle)
    requires Early(kind)
    ensures RunCalls(CompCalls(kind), 0, p, w, o).0.shared.book == w.shared.book
  {
    if CompCalls(kind) != [] {
      RunOne(CompCalls(kind), p, w, o);
    }
  }

  /** Compensating steps before the reservation moves no money. */
  lemma {:induction false} EarlyRollbackKeepsBook(settles: bool, o: Oracle, p: Payment, w: World, k: nat)
    requires k <= 5
    ensures Rollback(Wired(settles, o), k, p, w).world.shared.book == w.shared.book
    decreases k
  {
    if k > 0 {
      Interleaving.PipelineShape(settles);
      assert Pipeline(settles)[k - 1] == Pipeline(settles)[..7][k - 1];
      EarlyCompensationKeepsBook(Pipeline(settles)[k - 1], p, w, o);
      EarlyRollbackKeepsBook(settles, o, p, RunCalls(CompCalls(Pipeline(settles)[k - 1]), 0, p, w, o).0, k - 1);
    }
  }

  /** The run fails at its reservation and rolls back the steps before it. */
  lemma {:induction false} FailsAtMark(settles: bool, o: Oracle, p: Payment, w: World, k: nat) returns (w1: World)
    requires k == 5 && Known(w.shared, p) && w.log == [] && ValidFields(p)
    requires w.shared.tables.payments[p.id].status == Received
    requires (forall n: nat :: n < 11 ==> Confirmed(o(n))) && !o(11).reachable
    requires Bank.Accepts(w.shared.book, Bank.Hold, p.sourceAccount, p.amount)
    ensures Known(w1.shared, p) && w1.shared.tables.payments[p.id].status == PersistedAfter(Pipeline(settles), k)
    ensures w1.shared.book == Bank.Apply(w.shared.book, Bank.Hold, p.sourceAccount, p.amount) && |w1.log| == 12
    ensures var run := RunFrom(Wired(settles, o), 0, p, w);
            !run.ok && run.world == Rollback(Wired(settles, o), k, p, w1).world
  {
    var steps := Wired(settles, o);
    WiredPassLike(settles, o, p);
    EarlyStepsPass(steps, o, p, w, k);
    StatusAfterPrefix(settles, o, p, w, k);
    var before := After(steps, k, p, w);
    w1 := RunCalls(ExecCalls(Reserve), 0, p, before, o).0;
    Interleaving.PipelineShape(settles);
    assert steps[k] == StepOf(Reserve, o);
    ReserveLosesMark(p, before, o);
    RunFromFailure(steps, 0, k, p, w);
  }

  lemma {:induction false} ScreenedAfterFive(settles: bool, k: nat)
    requires k == 5
    ensures PersistedAfter(Pipeline(settles), k) == Screened
  {
    Interleaving.PipelineShape(settles);
    assert Pipeline(settles)[k - 1] == Pipeline(settles)[..7][k - 1];
  }

  /** What the rollback leaves: the money as it is, and ABORTED if one of its three writes gets through. */
  lemma {:induction false} RollsBackEarly(settles: bool, o: Oracle, p: Payment, w1: World, k: nat)
    requires k == 5 && Known(w1.shared, p) && w1.shared.tables.payments[p.id].status == Screened
    ensures var w2 := Rollback(Wired(settles, o), k, p, w1).world;
            && w2.shared.book == w1.shared.book
            && p.id in w2.shared.tables.payments
            && w2.shared.tables.payments[p.id].status == if AnyThrough(o, |w1.log|, 3) then Aborted else Screened
  {
    EarlyRollbackKeepsBook(settles, o, p, w1, k);
    WiredCompensateLike(settles, o, p);
    EarlierRollback(settles, Wired(settles, o), o, p, w1, k);
  }

  /** What a run leaves that fails at the mark: the source down by the amount, and the payment not RESERVED. */
  predicate LeaksHold(p: Payment, b: map<string, int>, w: World, aborted: bool)
    requires p.sourceAccount in b
  {
    && w.shared.book.accounts == b[p.sourceAccount := b[p.sourceAccount] - p.amount]
    && p.id in w.shared.tables.payments
    && w.shared.tables.payments[p.id].status == if aborted then Aborted else Screened
  }

  lemma HoldIsGone(p: Payment, b: Bank.Book, w1: World, w2: World, aborted: bool)
    requires p.sourceAccount in b.accounts && p.amount <= b.accounts[p.sourceAccount]
    requires w1.shared.book == Bank.Apply(b, Bank.Hold, p.sourceAccount, p.amount) && w2.shared.book == w1.shared.book
    requires p.id in w2.shared.tables.payments
    requires w2.shared.tables.payments[p.id].status == if aborted then Aborted else Screened
    ensures LeaksHold(p, b.accounts, w2, aborted)
  {
  }

  lemma {:induction false} FailsAndRollsBack(settles: bool, o: Oracle, p: Payment, shared: Shared, k: nat)
    requires k == 5 && Known(shared, p) && shared.tables.payments[p.id].status == Received && ValidFields(p)
    requires p.sourceAccount in shared.book.accounts && p.amount <= shared.book.accounts[p.sourceAccount]
    requires (forall n: nat :: n < 11 ==> Confirmed(o(n))) && !o(11).reachable
    ensures var run := RunFrom(Wired(settles, o), 0, p, World(shared, []));
            !run.ok && LeaksHold(p, shared.book.accounts, run.world, AnyThrough(o, 12, 3))
  {
    var w1 := FailsAtMark(settles, o, p, World(shared, []), k);
    ScreenedAfterFive(settles, k);
    RollsBackEarly(settles, o, p, w1, k);
    HoldIsGone(p, shared.book, w1, Rollback(Wired(settles, o), k, p, w1).world, AnyThrough(o, |w1.log|, 3));
  }

  /**
   * The smallest failure that leaks: a valid payment whose calls all succeed until the reservation is to be
   * marked, the twelfth call, which does not get through. Whatever the rollback meets, the run fails with the
   * source down by the amount and every other balance as it was, and the payment is ABORTED or still
   * SCREENED, so no sweep lists it.
   */
  lemma LostMarkLeaks(settles: bool, o: Oracle, p: Payment, shared: Shared)
    requires Known(shared, p) && shared.tables.payments[p.id].status == Received && ValidFields(p)
    requires p.sourceAccount in shared.book.accounts && p.amount <= shared.book.accounts[p.sourceAccount]
    requires (forall n: nat :: n < 11 ==> Confirmed(o(n))) && !o(11).reachable
    ensures var run := RunFrom(Wired(settles, o), 0, p, World(shared, []));
            !run.ok && LeaksHold(p, shared.book.accounts, run.world, AnyThrough(o, 12, 3))
  {
    FailsAndRollsBack(settles, o, p, shared, 5);
  }
}
