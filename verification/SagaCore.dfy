/** The saga engine: run a list of steps, and on the first failure compensate backwards. */
module SagaCore {
  import opened Domain

  /** A step for payments P over any kind of world W: both halves return the new world and whether they succeeded. */
  datatype Step<!P, !W> = Step(exec: (P, W) -> (W, bool), comp: (P, W) -> (W, bool))

  datatype Call = Execute(index: nat) | Compensate(index: nat)

  datatype Outcome<+W> = Outcome(world: W, ok: bool, trace: seq<Call>)

  /** Compensate steps k-1 down to 0, dropping errors. `ok` tells whether there were none. */
  function Rollback<P, W>(steps: seq<Step<P, W>>, k: nat, p: P, w: W): Outcome<W>
    requires k <= |steps|
  {
    if k == 0 then Outcome(w, true, [])
    else
      var (w1, ok) := steps[k - 1].comp(p, w);
      var rest := Rollback(steps, k - 1, p, w1);
      Outcome(rest.world, ok && rest.ok, [Compensate(k - 1)] + rest.trace)
  }

  /** Compensate steps k-1 down to 0, stopping at the first error. */
  function StrictRollback<P, W>(steps: seq<Step<P, W>>, k: nat, p: P, w: W): Outcome<W>
    requires k <= |steps|
  {
    if k == 0 then Outcome(w, true, [])
    else
      var (w1, ok) := steps[k - 1].comp(p, w);
      if !ok then Outcome(w1, false, [Compensate(k - 1)])
      else
        var rest := StrictRollback(steps, k - 1, p, w1);
        Outcome(rest.world, rest.ok, [Compensate(k - 1)] + rest.trace)
  }

  /** Execute steps k, k+1, ...; the k steps before have completed. */
  function RunFrom<P, W>(steps: seq<Step<P, W>>, k: nat, p: P, w: W): Outcome<W>
    requires k <= |steps|
    decreases |steps| - k
  {
    if k == |steps| then Outcome(w, true, [])
    else
      var (w1, ok) := steps[k].exec(p, w);
      var rest := if ok then RunFrom(steps, k + 1, p, w1) else Rollback(steps, k, p, w1);
      Outcome(rest.world, ok && rest.ok, [Execute(k)] + rest.trace)
  }

  // ------------------------------------------------------------ what a run means, without recursion over calls

  /** The world once the first k steps have been executed. */
  function After<P, W>(steps: seq<Step<P, W>>, k: nat, p: P, w: W): W
    requires k <= |steps|
  {
    if k == 0 then w else steps[k - 1].exec(p, After(steps, k - 1, p, w)).0
  }

  predicate Succeed<P, W>(steps: seq<Step<P, W>>, k: nat, p: P, w: W)
    requires k <= |steps|
  {
    forall i {:trigger After(steps, i, p, w)} :: 0 <= i < k ==> steps[i].exec(p, After(steps, i, p, w)).1
  }

  predicate FailsFirstAt<P, W>(steps: seq<Step<P, W>>, k: nat, p: P, w: W) {
    k < |steps| && Succeed(steps, k, p, w) && !steps[k].exec(p, After(steps, k, p, w)).1
  }

  function Executes(from: nat, to: nat): (t: seq<Call>)
    requires from <= to
    ensures |t| == to - from && forall i :: 0 <= i < |t| ==> t[i] == Execute(from + i)
  {
    seq(to - from, i requires 0 <= i => Execute(from + i))
  }

  function Compensates(k: nat): (t: seq<Call>)
    ensures |t| == k && forall i :: 0 <= i < k ==> t[i] == Compensate(k - 1 - i)
  {
    seq(k, i requires 0 <= i < k => Compensate(k - 1 - i))
  }

  lemma {:induction false} RollbackTrace<P, W>(steps: seq<Step<P, W>>, k: nat, p: P, w: W)
    requires k <= |steps|
    ensures Rollback(steps, k, p, w).trace == Compensates(k)
    decreases k
  {
    if k > 0 {
      RollbackTrace(steps, k - 1, p, steps[k - 1].comp(p, w).0);
      assert Compensates(k) == [Compensate(k - 1)] + Compensates(k - 1);
    }
  }

  /** The outcome of a run whose first failure is at step k, as seen from step i. */
  function FailedOutcome<P, W>(steps: seq<Step<P, W>>, i: nat, k: nat, p: P, w: W): Outcome<W>
    requires i <= k < |steps|
  {
    Outcome(Rollback(steps, k, p, steps[k].exec(p, After(steps, k, p, w)).0).world, false,
            Executes(i, k + 1) + Compensates(k))
  }

  lemma {:induction false} RunFromFailure<P, W>(steps: seq<Step<P, W>>, i: nat, k: nat, p: P, w: W)
    requires i <= k && FailsFirstAt(steps, k, p, w)
    ensures RunFrom(steps, i, p, After(steps, i, p, w)) == FailedOutcome(steps, i, k, p, w)
    decreases k - i
  {
    var (w1, ok) := steps[i].exec(p, After(steps, i, p, w));
    if i == k {
      RollbackTrace(steps, k, p, w1);
      assert Executes(k, k + 1) == [Execute(k)];
    } else {
      assert ok && After(steps, i + 1, p, w) == w1;
      RunFromFailure(steps, i + 1, k, p, w);
      var rest := RunFrom(steps, i + 1, p, w1);
      assert [Execute(i)] + rest.trace == Executes(i, k + 1) + Compensates(k);
    }
  }

  lemma {:induction false} RunFromSuccess<P, W>(steps: seq<Step<P, W>>, i: nat, p: P, w: W)
    requires i <= |steps| && Succeed(steps, |steps|, p, w)
    ensures RunFrom(steps, i, p, After(steps, i, p, w))
         == Outcome(After(steps, |steps|, p, w), true, Executes(i, |steps|))
    decreases |steps| - i
  {
    if i < |steps| {
      RunFromSuccess(steps, i + 1, p, w);
      assert After(steps, i + 1, p, w) == steps[i].exec(p, After(steps, i, p, w)).0;
      assert Executes(i, |steps|) == [Execute(i)] + Executes(i + 1, |steps|);
    }
  }

  /**
   * For any list of steps: if step k is the first to fail, the calls are Execute 0..k and then
   * Compensate k-1..0, each exactly once; the run reports the failure.
   */
  lemma {:induction false} FailedRunTrace<P, W>(steps: seq<Step<P, W>>, k: nat, p: P, w: W)
    requires FailsFirstAt(steps, k, p, w)
    ensures var run := RunFrom(steps, 0, p, w);
            && !run.ok
            && run.trace == Executes(0, k + 1) + Compensates(k)
            && (forall i, j :: 0 <= i < j < |run.trace| ==> run.trace[i] != run.trace[j])
  {
    RunFromFailure(steps, 0, k, p, w);
  }

  /** A run succeeds exactly when every step succeeds, and then calls each Execute once and nothing else. */
  lemma {:induction false} RunSucceedsIff<P, W>(steps: seq<Step<P, W>>, p: P, w: W)
    ensures var run := RunFrom(steps, 0, p, w);
            && (run.ok <==> Succeed(steps, |steps|, p, w))
            && (run.ok ==> run.world == After(steps, |steps|, p, w) && run.trace == Executes(0, |steps|))
  {
    if Succeed(steps, |steps|, p, w) {
      RunFromSuccess(steps, 0, p, w);
    } else {
      var k := FirstFailure(steps, p, w);
      RunFromFailure(steps, 0, k, p, w);
    }
  }

  lemma FirstFailure<P, W>(steps: seq<Step<P, W>>, p: P, w: W) returns (k: nat)
    requires !Succeed(steps, |steps|, p, w)
    ensures FailsFirstAt(steps, k, p, w)
  {
    k := 0;
    while k < |steps| && steps[k].exec(p, After(steps, k, p, w)).1
      invariant k <= |steps| && Succeed(steps, k, p, w)
    {
      k := k + 1;
    }
  }

  /** Every Compensate undoes its Execute, and a failing Execute changes nothing. */
  ghost predicate Invertible<P, W(!new)>(s: Step<P, W>, p: P) {
    forall w {:trigger s.exec(p, w)} ::
      if s.exec(p, w).1 then s.comp(p, s.exec(p, w).0).0 == w else s.exec(p, w).0 == w
  }

  lemma {:induction false} RollbackRestores<P, W(!new)>(steps: seq<Step<P, W>>, k: nat, p: P, w: W)
    requires k <= |steps| && Succeed(steps, k, p, w)
    requires forall i :: 0 <= i < |steps| ==> Invertible(steps[i], p)
    ensures Rollback(steps, k, p, After(steps, k, p, w)).world == w
    decreases k
  {
    if k > 0 {
      assert steps[k - 1].exec(p, After(steps, k - 1, p, w)).1;
      RollbackRestores(steps, k - 1, p, w);
    }
  }

  /** Over invertible steps, a failed run leaves the world exactly as it found it. */
  lemma {:induction false} FailedRunRestores<P, W(!new)>(steps: seq<Step<P, W>>, p: P, w: W)
    requires forall i :: 0 <= i < |steps| ==> Invertible(steps[i], p)
    requires !RunFrom(steps, 0, p, w).ok
    ensures RunFrom(steps, 0, p, w).world == w
  {
    RunSucceedsIff(steps, p, w);
    var k := FirstFailure(steps, p, w);
    RunFromFailure(steps, 0, k, p, w);
    RollbackRestores(steps, k, p, w);
  }

  /** What every single compensation guarantees, and composes, holds for the whole of CompensatePayment. */
  lemma {:induction false} StrictRollbackRelates<P, W(!new)>(steps: seq<Step<P, W>>, k: nat, p: P, w: W,
                                                      related: (W, W) -> bool)
    requires k <= |steps|
    requires forall a :: related(a, a)
    requires forall a, b, c :: related(a, b) && related(b, c) ==> related(a, c)
    requires forall i, a {:trigger steps[i].comp(p, a)} :: 0 <= i < |steps| ==> related(a, steps[i].comp(p, a).0)
    ensures related(w, StrictRollback(steps, k, p, w).world)
    decreases k
  {
    if k > 0 {
      var (w1, ok) := steps[k - 1].comp(p, w);
      assert related(w, steps[k - 1].comp(p, w).0);
      if ok {
        StrictRollbackRelates(steps, k - 1, p, w1, related);
      }
    }
  }

  /** The two rollbacks report errors alike, and without an error they are the same. */
  lemma {:induction false} StrictRollbackAgrees<P, W>(steps: seq<Step<P, W>>, k: nat, p: P, w: W)
    requires k <= |steps|
    ensures StrictRollback(steps, k, p, w).ok <==> Rollback(steps, k, p, w).ok
    ensures Rollback(steps, k, p, w).ok ==> StrictRollback(steps, k, p, w) == Rollback(steps, k, p, w)
    decreases k
  {
    if k > 0 {
      StrictRollbackAgrees(steps, k - 1, p, steps[k - 1].comp(p, w).0);
    }
  }

  lemma {:induction false} RollbackOfPrefix<P, W>(steps: seq<Step<P, W>>, n: nat, k: nat, p: P, w: W)
    requires k <= n <= |steps|
    ensures Rollback(steps[..n], k, p, w) == Rollback(steps, k, p, w)
    decreases k
  {
    if k > 0 {
      RollbackOfPrefix(steps, n, k - 1, p, steps[k - 1].comp(p, w).0);
    }
  }

  /** A run that fails at step k rolls back the list of its k completed steps. */
  lemma {:induction false} FailureUndoesPrefix<P, W>(steps: seq<Step<P, W>>, k: nat, p: P, w: W)
    requires FailsFirstAt(steps, k, p, w)
    ensures var undone := Rollback(steps[..k], k, p, steps[k].exec(p, After(steps, k, p, w)).0);
            RunFrom(steps, 0, p, w) == Outcome(undone.world, false, Executes(0, k) + [Execute(k)] + undone.trace)
  {
    var w1 := steps[k].exec(p, After(steps, k, p, w)).0;
    RunFromFailure(steps, 0, k, p, w);
    RollbackOfPrefix(steps, k, k, p, w1);
    RollbackTrace(steps, k, p, w1);
    assert Executes(0, k + 1) == Executes(0, k) + [Execute(k)];
  }

  // ------------------------------------------------------------ the saga object

  /** How many steps must have completed at a persisted status; it fits the wired pipeline. */
  function StatusToStepCount(s: Status): nat {
    match s
    case Received => 0
    case Validated => 1
    case LookedUp => 2
    case Routed => 3
    case Quoted => 4
    case Screened => 5
    case Reserved => 6
    case Committed => 7
    case Settled => 8
    case Aborted => 0
  }

  /** The number of steps CompensatePayment undoes, given the saga's own counter. */
  function CompensationDepth(completedSteps: int, s: Status, stepCount: nat): nat {
    var n := if completedSteps <= 0 then StatusToStepCount(s) else completedSteps;
    if n > stepCount then stepCount else n
  }

  class Saga<P, W> {
    const steps: seq<Step<P, W>>
    /** One counter for all payments: a run of any payment overwrites it. */
    var completedSteps: int

    constructor (steps: seq<Step<P, W>>)
      ensures this.steps == steps && completedSteps == 0
    {
      this.steps := steps;
      completedSteps := 0;
    }

    method Run(p: P, w0: W) returns (w: W, ok: bool, ghost trace: seq<Call>)
      modifies this
      ensures Outcome(w, ok, trace) == RunFrom(steps, 0, p, w0)
      ensures if ok then completedSteps == |steps|
              else completedSteps >= 0 && FailsFirstAt(steps, completedSteps, p, w0)
    {
      completedSteps := 0;
      var completed := [];
      w, trace := w0, [];
      for i := 0 to |steps|
        invariant completed == steps[..i] && completedSteps == i
        invariant w == After(steps, i, p, w0) && Succeed(steps, i, p, w0)
        invariant trace == Executes(0, i)
      {
        var (w1, done) := steps[i].exec(p, w);
        trace := trace + [Execute(i)];
        if !done {
          ghost var undone;
          w, undone := RollbackCompleted(p, w1, completed);
          trace := trace + undone;
          FailureUndoesPrefix(steps, i, p, w0);
          return w, false, trace;
        }
        w := w1;
        completed := completed + [steps[i]];
        completedSteps := completedSteps + 1;
      }
      RunFromSuccess(steps, 0, p, w0);
      return w, true, trace;
    }

    method RollbackCompleted(p: P, w0: W, completed: seq<Step<P, W>>) returns (w: W, ghost trace: seq<Call>)
      ensures w == Rollback(completed, |completed|, p, w0).world
      ensures trace == Rollback(completed, |completed|, p, w0).trace
    {
      w, trace := w0, [];
      ghost var all := Rollback(completed, |completed|, p, w0);
      for i := |completed| downto 0
        invariant Rollback(completed, i, p, w).world == all.world
        invariant trace + Rollback(completed, i, p, w).trace == all.trace
      {
        ghost var rest := Rollback(completed, i, p, completed[i].comp(p, w).0).trace;
        assert trace + ([Compensate(i)] + rest) == trace + [Compensate(i)] + rest;
        w := completed[i].comp(p, w).0;
        trace := trace + [Compensate(i)];
      }
    }

    method CompensatePayment(status: Status, p: P, w0: W) returns (w: W, ok: bool, ghost trace: seq<Call>)
      ensures var all := StrictRollback(steps, CompensationDepth(completedSteps, status, |steps|), p, w0);
              w == all.world && ok == all.ok
      ensures trace == StrictRollback(steps, CompensationDepth(completedSteps, status, |steps|), p, w0).trace
    {
      var n := completedSteps;
      if n <= 0 {
        n := StatusToStepCount(status);
      }
      if n > |steps| {
        n := |steps|;
      }
      w, trace := w0, [];
      ghost var all := StrictRollback(steps, n, p, w0);
      for i := n downto 0
        invariant var rest := StrictRollback(steps, i, p, w);
                  all == Outcome(rest.world, rest.ok, trace + rest.trace)
      {
        var (w1, done) := steps[i].comp(p, w);
        ghost var rest := StrictRollback(steps, i, p, w1).trace;
        assert trace + ([Compensate(i)] + rest) == trace + [Compensate(i)] + rest;
        w, trace := w1, trace + [Compensate(i)];
        if !done {
          return w, false, trace;
        }
      }
      return w, true, trace;
    }
  }
}
