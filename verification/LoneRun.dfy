/** One call of Saga.Run on the wired pipeline, related to the interleaving machine. */
module LoneRun {
  import opened Domain
  import opened Sums
  import opened SagaCore
  import opened Steps
  import opened Interleaving
  import opened Conservation
  import Bank

  /** The machine state in which the payment of this run is the only one. */
  function Alone(p: Payment, w: World, pc: Pc): State {
    State(w.shared, [Proc(p, pc, w.log)])
  }

  /** Let the only saga make calls `from`..`to`, meeting the turns of the oracle. */
  function Solo(o: Oracle, from: nat, to: nat): (schedule: seq<Action>)
    requires from <= to
    ensures |schedule| == to - from
  {
    seq(to - from, i requires 0 <= i => Action(0, o(from + i)))
  }

  /** The machine goes from one point of the run to another; every call adds one line to the log. */
  ghost predicate Reaches(settles: bool, p: Payment, o: Oracle, w: World, pc: Pc, w': World, pc': Pc) {
    && ValidPc(Pipeline(settles), pc)
    && |w.log| <= |w'.log|
    && Run(settles, Alone(p, w, pc), Solo(o, |w.log|, |w'.log|)) == Alone(p, w', pc')
  }

  lemma {:induction false} RunLast(settles: bool, s: State, c: seq<Action>, x: Action)
    requires WellFormed(settles, s)
    ensures Run(settles, s, c + [x]) == Advance(settles, Run(settles, s, c), x)
  {
    assert (c + [x])[..|c|] == c;
  }

  lemma {:induction false} RunCompose(settles: bool, s: State, a: seq<Action>, b: seq<Action>)
    requires WellFormed(settles, s)
    ensures Run(settles, s, a + b) == Run(settles, Run(settles, s, a), b)
    decreases |b|
  {
    if b == [] {
      assert a + b == a;
    } else {
      var b', x := b[..|b| - 1], b[|b| - 1];
      assert b == b' + [x];
      assert a + b == (a + b') + [x];
      RunCompose(settles, s, a, b');
      RunLast(settles, s, a + b', x);
      RunLast(settles, Run(settles, s, a), b', x);
    }
  }

  lemma {:induction false} RunSolo(settles: bool, o: Oracle, s: State, from: nat, mid: nat, to: nat)
    requires WellFormed(settles, s) && from <= mid <= to
    ensures Run(settles, s, Solo(o, from, to)) == Run(settles, Run(settles, s, Solo(o, from, mid)), Solo(o, mid, to))
  {
    assert Solo(o, from, to) == Solo(o, from, mid) + Solo(o, mid, to);
    RunCompose(settles, s, Solo(o, from, mid), Solo(o, mid, to));
  }

  lemma ReachesTrans(settles: bool, p: Payment, o: Oracle,
                     w0: World, pc0: Pc, w1: World, pc1: Pc, w2: World, pc2: Pc)
    requires Reaches(settles, p, o, w0, pc0, w1, pc1) && Reaches(settles, p, o, w1, pc1, w2, pc2)
    ensures Reaches(settles, p, o, w0, pc0, w2, pc2)
  {
    RunSolo(settles, o, Alone(p, w0, pc0), |w0.log|, |w1.log|, |w2.log|);
  }

  lemma ReachesOne(settles: bool, p: Payment, o: Oracle, w: World, pc: Pc)
    requires ValidPc(Pipeline(settles), pc) && !pc.Done?
    ensures var (w', ok) := Invoke(RequestAt(Pipeline(settles), pc).op, p, w, o);
            Reaches(settles, p, o, w, pc, w', Next(Pipeline(settles), pc, ok))
  {
    var s := Alone(p, w, pc);
    var a := Action(0, o(|w.log|));
    assert Solo(o, |w.log|, |w.log| + 1) == [a];
    assert [a][..0] == [];
    assert Run(settles, s, []) == s;
    assert Run(settles, s, [a]) == Advance(settles, s, a);
  }

  /** Where an Execute that ended leads. */
  function AfterExecute(kinds: seq<StepKind>, k: nat, ok: bool): Pc
    requires k < |kinds|
  {
    if ok then ExecFrom(kinds, k + 1) else CompFrom(kinds, k)
  }

  /** The rest of an Execute, from call c on. */
  lemma {:induction false} ExecuteRefines(settles: bool, p: Payment, o: Oracle, w: World, k: nat, c: nat)
    requires ValidPc(Pipeline(settles), Exec(k, c))
    ensures var (w', ok) := RunCalls(ExecCalls(Pipeline(settles)[k]), c, p, w, o);
            Reaches(settles, p, o, w, Exec(k, c), w', AfterExecute(Pipeline(settles), k, ok))
    decreases |ExecCalls(Pipeline(settles)[k])| - c
  {
    var calls := ExecCalls(Pipeline(settles)[k]);
    var (w1, ok1) := Invoke(calls[c].op, p, w, o);
    ReachesOne(settles, p, o, w, Exec(k, c));
    if !(calls[c].Must? && !ok1) && c + 1 < |calls| {
      ExecuteRefines(settles, p, o, w1, k, c + 1);
      var (w', ok) := RunCalls(calls, c + 1, p, w1, o);
      ReachesTrans(settles, p, o, w, Exec(k, c), w1, Exec(k, c + 1), w', AfterExecute(Pipeline(settles), k, ok));
    }
  }

  /** The rest of a Compensate, from call c on: whatever happens, the previous step is next. */
  lemma {:induction false} CompensateRefines(settles: bool, p: Payment, o: Oracle, w: World, k: nat, c: nat)
    requires ValidPc(Pipeline(settles), Comp(k, c))
    ensures var w' := RunCalls(CompCalls(Pipeline(settles)[k]), c, p, w, o).0;
            Reaches(settles, p, o, w, Comp(k, c), w', CompFrom(Pipeline(settles), k))
    decreases |CompCalls(Pipeline(settles)[k])| - c
  {
    var kinds := Pipeline(settles);
    var calls := CompCalls(kinds[k]);
    var (w1, ok1) := Invoke(calls[c].op, p, w, o);
    ReachesOne(settles, p, o, w, Comp(k, c));
    if !(calls[c].Must? && !ok1) && c + 1 < |calls| {
      CompensateRefines(settles, p, o, w1, k, c + 1);
      ReachesTrans(settles, p, o, w, Comp(k, c), w1, Comp(k, c + 1),
                   RunCalls(calls, c + 1, p, w1, o).0, CompFrom(kinds, k));
    }
  }

  lemma ReachesSelf(settles: bool, p: Payment, o: Oracle, w: World, pc: Pc)
    requires ValidPc(Pipeline(settles), pc)
    ensures Reaches(settles, p, o, w, pc, w, pc)
  {
    assert Solo(o, |w.log|, |w.log|) == [];
  }

  lemma {:induction false} RollbackRefines(settles: bool, p: Payment, o: Oracle, w: World, k: nat)
    requires k <= |Pipeline(settles)|
    ensures Reaches(settles, p, o, w, CompFrom(Pipeline(settles), k),
                    Rollback(Wired(settles, o), k, p, w).world, Done(false))
    decreases k
  {
    var kinds := Pipeline(settles);
    CompFromValid(kinds, k);
    if k == 0 {
      ReachesSelf(settles, p, o, w, Done(false));
    } else {
      var w1 := StepOf(kinds[k - 1], o).comp(p, w).0;
      RollbackRefines(settles, p, o, w1, k - 1);
      if CompCalls(kinds[k - 1]) != [] {
        CompensateRefines(settles, p, o, w, k - 1, 0);
        ReachesTrans(settles, p, o, w, Comp(k - 1, 0), w1, CompFrom(kinds, k - 1),
                     Rollback(Wired(settles, o), k - 1, p, w1).world, Done(false));
      }
    }
  }

  /** Saga.Run makes exactly the moves of the machine with a single saga. */
  lemma {:induction false} RunRefines(settles: bool, p: Payment, o: Oracle, w: World, k: nat)
    requires k <= |Pipeline(settles)|
    ensures var run := RunFrom(Wired(settles, o), k, p, w);
            Reaches(settles, p, o, w, ExecFrom(Pipeline(settles), k), run.world, Done(run.ok))
    decreases |Pipeline(settles)| - k
  {
    var kinds := Pipeline(settles);
    var steps := Wired(settles, o);
    if k == |kinds| {
      ReachesSelf(settles, p, o, w, Done(true));
    } else {
      ExecuteRefines(settles, p, o, w, k, 0);
      var (w1, ok) := steps[k].exec(p, w);
      var run := RunFrom(steps, k, p, w);
      if ok {
        RunRefines(settles, p, o, w1, k + 1);
        ReachesTrans(settles, p, o, w, Exec(k, 0), w1, ExecFrom(kinds, k + 1), run.world, Done(run.ok));
      } else {
        RollbackRefines(settles, p, o, w1, k);
        ReachesTrans(settles, p, o, w, Exec(k, 0), w1, CompFrom(kinds, k), run.world, Done(false));
      }
    }
  }

  // ------------------------------------------------------------ what a run does to the accounts

  lemma {:induction false} RunInv(settles: bool, p: Payment, o: Oracle, shared: Shared)
    requires Bank.Solvent(shared.book)
    ensures var w := World(shared, []);
            var run := RunFrom(Wired(settles, o), 0, p, w);
            Inv(settles, Alone(p, w, Exec(0, 0)), Alone(p, run.world, Done(run.ok)))
  {
    var w := World(shared, []);
    var s := Alone(p, w, Exec(0, 0));
    RunRefines(settles, p, o, w, 0);
    FreshWellFormed(settles, s);
    RunKeepsInv(settles, s, Solo(o, 0, |RunFrom(Wired(settles, o), 0, p, w).world.log|));
  }

  /** With a single saga, every account moved by what that saga's log says. */
  lemma AloneAccounts(settles: bool, s0: State, s: State)
    requires Inv(settles, s0, s) && |s.procs| == 1
    ensures var b0, b := s0.shared.book.accounts, s.shared.book.accounts;
            && b.Keys == b0.Keys
            && forall a :: a in b ==> b[a] == b0[a] + FlowAt(s.procs[0], a)
  {
    forall a | a in s.shared.book.accounts
      ensures SumSeq(FlowsAt(s.procs, a)) == FlowAt(s.procs[0], a)
    {
      assert FlowsAt(s.procs, a) == [FlowAt(s.procs[0], a)];
      assert SumSeq([FlowAt(s.procs[0], a)]) == FlowAt(s.procs[0], a);
    }
  }

  /**
   * The promise of a run between distinct accounts: on success exactly the amount moves from source
   * to destination; on failure the balances are untouched if and only if nothing leaked.
   */
  ghost predicate AllOrNothing(q: Proc, ok: bool, b: map<string, int>, b': map<string, int>) {
    var src, dst, amount := q.payment.sourceAccount, q.payment.destAccount, q.payment.amount;
    if ok then src in b && dst in b && b' == b[src := b[src] - amount][dst := b[dst] + amount]
    else b' == b <==> !Leaked(q)
  }

  /** The balances a finished saga leaves behind, read off its invariant. */
  lemma FinishedBalances(b: map<string, int>, b': map<string, int>, q: Proc, ok: bool)
    requires b'.Keys == b.Keys && forall a :: a in b' ==> b'[a] == b[a] + FlowAt(q, a)
    requires q.pc == Done(ok) && MoneyInv(q) && Backed(Bank.Book(b', map[]), q)
    requires q.payment.sourceAccount != q.payment.destAccount
    requires q.payment.amount > 0 || !Leaked(q)
    ensures AllOrNothing(q, ok, b, b')
  {
    var src, dst := q.payment.sourceAccount, q.payment.destAccount;
    if !ok && Leaked(q) {
      assert (src in b && b'[src] != b[src]) || (dst in b && b'[dst] != b[dst]);
    }
  }

  /** A finished saga that was alone, seen through the invariant. */
  lemma AloneFinished(settles: bool, s0: State, s: State, ok: bool)
    requires Inv(settles, s0, s) && |s.procs| == 1 && s.procs[0].pc == Done(ok)
    requires s.procs[0].payment.sourceAccount != s.procs[0].payment.destAccount
    ensures AllOrNothing(s.procs[0], ok, s0.shared.book.accounts, s.shared.book.accounts)
  {
    var q := s.procs[0];
    assert ProcInv(settles, q) && Backed(s.shared.book, q);
    AloneAccounts(settles, s0, s);
    FinishedBalances(s0.shared.book.accounts, s.shared.book.accounts, q, ok);
  }

  /**
   * A lone run between distinct accounts, under every failure schedule, either succeeds and moves
   * exactly the amount from source to destination, or fails; a failed run leaves every balance as it
   * was if and only if no bank call took effect without an answer, no status write right after a bank
   * call was left unconfirmed, and every compensating bank call took effect.
   */
  lemma {:induction false} LoneRunIsAllOrNothing(settles: bool, p: Payment, o: Oracle, shared: Shared)
    requires Bank.Solvent(shared.book) && p.sourceAccount != p.destAccount
    ensures var run := RunFrom(Wired(settles, o), 0, p, World(shared, []));
            AllOrNothing(Proc(p, Done(run.ok), run.world.log), run.ok,
                         shared.book.accounts, run.world.shared.book.accounts)
  {
    var w := World(shared, []);
    var run := RunFrom(Wired(settles, o), 0, p, w);
    RunInv(settles, p, o, shared);
    AloneFinished(settles, Alone(p, w, Exec(0, 0)), Alone(p, run.world, Done(run.ok)), run.ok);
  }
}
