/** When a run succeeds: every required call is answered, and the payment is one the bank can carry out. */
module Healthy {
  import opened Domain
  import opened SagaCore
  import opened Steps
  import opened Recovery
  import opened Sweep
  import opened Leaking
  import opened Script
  import Bank
  import Interleaving
  import LoneRun
  import Repository

  /** The bank can carry out the payment. */
  predicate Covered(b: Bank.Book, p: Payment) {
    && p.sourceAccount in b.accounts && p.amount <= b.accounts[p.sourceAccount]
    && p.destAccount in b.accounts
  }

  /** What the steps so far have left, when nothing stopped them. */
  predicate OnTheWay(settles: bool, p: Payment, b: Bank.Book, k: nat, w: World) {
    && Known(w.shared, p)
    && w.shared.book.accounts.Keys == b.accounts.Keys
    && (k <= 5 ==> w.shared.book == b)
    && (2 * k <= Required(settles) ==> |w.log| == 2 * k)
  }

  ghost predicate Answered(settles: bool, o: Oracle) {
    forall n: nat :: n < Required(settles) ==> Confirmed(o(n))
  }

  lemma BankPasses(operation: Bank.Operation, p: Payment, w: World, o: Oracle)
    requires Known(w.shared, p) && Confirmed(o(|w.log|))
    requires Bank.Accepts(w.shared.book, operation, AccountOf(operation, p), p.amount)
    ensures var (w', ok) := Invoke(BankCall(operation), p, w, o);
            && ok && Known(w'.shared, p) && |w'.log| == |w.log| + 1
            && w'.shared.book.accounts.Keys == w.shared.book.accounts.Keys
  {
  }

  lemma MarkPasses(p: Payment, w: World, o: Oracle)
    requires Known(w.shared, p) && Confirmed(o(|w.log|))
    ensures var (w', ok) := Invoke(MarkReserved, p, w, o);
            ok && Known(w'.shared, p) && w'.shared.book == w.shared.book && |w'.log| == |w.log| + 1
  {
    Repository.TransactKeepsValid(w.shared.tables, ChangeOf(MarkReserved, p, o(|w.log|).at), true);
  }

  /** The two money steps. */
  lemma MoneyStepPasses(kind: StepKind, p: Payment, w: World, o: Oracle)
    requires (kind.Reserve? || kind.Commit?) && Known(w.shared, p)
    requires Confirmed(o(|w.log|)) && Confirmed(o(|w.log| + 1))
    requires var operation := if kind.Reserve? then Bank.Hold else Bank.Deposit;
             Bank.Accepts(w.shared.book, operation, AccountOf(operation, p), p.amount)
    ensures var (w', ok) := RunCalls(ExecCalls(kind), 0, p, w, o);
            && ok && Known(w'.shared, p) && |w'.log| == |w.log| + 2
            && w'.shared.book.accounts.Keys == w.shared.book.accounts.Keys
  {
    var operation := if kind.Reserve? then Bank.Hold else Bank.Deposit;
    RunTwo(ExecCalls(kind), p, w, o);
    var w1 := Invoke(BankCall(operation), p, w, o).0;
    BankPasses(operation, p, w, o);
    if kind.Reserve? {
      MarkPasses(p, w1, o);
    } else {
      WritePasses(WriteStatus(Committed), p, w1, o);
    }
  }

  /** A step whose two calls are a service and its status. */
  lemma SettlePasses(p: Payment, w: World, o: Oracle)
    requires Known(w.shared, p) && Confirmed(o(|w.log|)) && Confirmed(o(|w.log| + 1))
    ensures var (w', ok) := RunCalls(ExecCalls(Settle), 0, p, w, o);
            ok && Passed(p, w, w')
  {
    RunTwo(ExecCalls(Settle), p, w, o);
    var w1 := Invoke(Remote(Clearing), p, w, o).0;
    assert w1.shared == w.shared;
    WritePasses(WriteStatus(Settled), p, w1, o);
  }

  /** The steps that cannot fail. */
  lemma LastStepsPass(kind: StepKind, p: Payment, w: World, o: Oracle)
    requires kind.RecordReconciliation? || kind.Notify?
    ensures var (w', ok) := RunCalls(ExecCalls(kind), 0, p, w, o);
            ok && w'.shared == w.shared
  {
    if kind.Notify? {
      RunTwo(ExecCalls(kind), p, w, o);
    } else {
      RunOne(ExecCalls(kind), p, w, o);
    }
  }

  lemma KindAt(settles: bool, k: nat)
    requires k < |Pipeline(settles)|
    ensures var kind := Pipeline(settles)[k];
            && (Early(kind) <==> k < 5) && (kind.Reserve? <==> k == 5) && (kind.Commit? <==> k == 6)
            && (kind.Settle? <==> settles && k == 7)
  {
    KindsAre(settles);
    if k < 7 {
      assert Pipeline(settles)[k] == Pipeline(settles)[..7][k];
    }
  }

  /** One more step passes. */
  lemma StepPasses(settles: bool, o: Oracle, p: Payment, b: Bank.Book, k: nat, w: World)
    requires k < |Pipeline(settles)| && Answered(settles, o) && ValidFields(p) && Covered(b, p)
    requires OnTheWay(settles, p, b, k, w)
    ensures var (w', ok) := RunCalls(ExecCalls(Pipeline(settles)[k]), 0, p, w, o);
            ok && OnTheWay(settles, p, b, k + 1, w')
  {
    var kind := Pipeline(settles)[k];
    KindAt(settles, k);
    if k < 5 {
      EarlyStepPasses(kind, p, w, o);
    } else if k <= 6 {
      MoneyStepPasses(kind, p, w, o);
    } else if kind.Settle? {
      SettlePasses(p, w, o);
    } else {
      KindsAre(settles);
      LastStepsPass(kind, p, w, o);
    }
  }

  /** Steps that pass one after the other. */
  ghost predicate Passable(settles: bool, steps: seq<Step<Payment, World>>, p: Payment, b: Bank.Book) {
    forall k: nat, w: World {:trigger steps[k].exec(p, w)} :: k < |steps| && OnTheWay(settles, p, b, k, w) ==>
      steps[k].exec(p, w).1 && OnTheWay(settles, p, b, k + 1, steps[k].exec(p, w).0)
  }

  lemma {:induction false} AllStepsPass(settles: bool, steps: seq<Step<Payment, World>>, p: Payment, b: Bank.Book,
                                        w: World, k: nat)
    requires k <= |steps| && Passable(settles, steps, p, b) && OnTheWay(settles, p, b, 0, w)
    ensures Succeed(steps, k, p, w) && OnTheWay(settles, p, b, k, After(steps, k, p, w))
    decreases k
  {
    if k > 0 {
      AllStepsPass(settles, steps, p, b, w, k - 1);
      var before := After(steps, k - 1, p, w);
      assert steps[k - 1].exec(p, before).1;
    }
  }

  /** With every required call answered, a payment that is filled in and covered goes through. */
  lemma {:induction false} CoveredRunSucceeds(settles: bool, o: Oracle, p: Payment, shared: Shared)
    requires Known(shared, p) && Answered(settles, o) && ValidFields(p) && Covered(shared.book, p)
    ensures RunFrom(Wired(settles, o), 0, p, World(shared, [])).ok
  {
    var steps, w := Wired(settles, o), World(shared, []);
    forall k: nat, v: World | k < |steps| && OnTheWay(settles, p, shared.book, k, v)
      ensures steps[k].exec(p, v).1 && OnTheWay(settles, p, shared.book, k + 1, steps[k].exec(p, v).0)
    {
      StepPasses(settles, o, p, shared.book, k, v);
    }
    AllStepsPass(settles, steps, p, shared.book, w, |steps|);
    RunSucceedsIff(steps, p, w);
  }

  /** A run that succeeded was filled in and covered, whatever the calls met. */
  lemma {:induction false} SuccessWasCovered(settles: bool, o: Oracle, p: Payment, shared: Shared)
    requires Bank.Solvent(shared.book) && p.sourceAccount != p.destAccount
    requires RunFrom(Wired(settles, o), 0, p, World(shared, [])).ok
    ensures FilledIn(p) && Covered(shared.book, p)
  {
    var run := RunFrom(Wired(settles, o), 0, p, World(shared, []));
    RunIsGrounded(settles, p, o, shared);
    assert |Ops(run.world.log)| > 0;
    LoneRun.LoneRunIsAllOrNothing(settles, p, o, shared);
    LoneRun.RunInv(settles, p, o, shared);
    var b, b' := shared.book.accounts, run.world.shared.book.accounts;
    assert b'[p.sourceAccount] == b[p.sourceAccount] - p.amount;
  }

  /**
   * When all required calls are answered, a run between distinct accounts succeeds if and only if the fields
   * that validation names are filled in, the source account covers the amount and the destination account
   * exists; the reconciliation record and the notifications may fail.
   */
  lemma RunSucceedsIffCovered(settles: bool, o: Oracle, p: Payment, shared: Shared)
    requires Bank.Solvent(shared.book) && p.sourceAccount != p.destAccount
    requires Known(shared, p) && Answered(settles, o)
    ensures RunFrom(Wired(settles, o), 0, p, World(shared, [])).ok <==> FilledIn(p) && Covered(shared.book, p)
  {
    if RunFrom(Wired(settles, o), 0, p, World(shared, [])).ok {
      SuccessWasCovered(settles, o, p, shared);
    } else if FilledIn(p) && Covered(shared.book, p) {
      CoveredRunSucceeds(settles, o, p, shared);
    }
  }
}
