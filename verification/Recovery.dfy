/** Compensation from the persisted status alone, as the sweeper triggers it. */
module Recovery {
  import opened Domain
  import opened SagaCore
  import opened Steps
  import opened Trails
  import Bank
  import Repository

  predicate Known(s: Shared, p: Payment) {
    s.tables.Valid() && p.id in s.tables.payments
  }

  /** The rest of a call list whose last call, and no other, writes the status `st`. */
  lemma {:induction false} CallsWrite(calls: seq<Request>, c: nat, st: Option<Status>, p: Payment, w: World, o: Oracle)
    requires Known(w.shared, p) && c < |calls|
    requires forall i :: c <= i < |calls| - 1 ==> StatusOf(calls[i].op) == None
    requires StatusOf(calls[|calls| - 1].op) == st && (st.Some? ==> calls[|calls| - 1].Must?)
    ensures var (w', ok) := RunCalls(calls, c, p, w, o);
            && Known(w'.shared, p)
            && (ok ==> Repository.HistoryOf(w'.shared.tables, p.id)
                       == Extend(Repository.HistoryOf(w.shared.tables, p.id), st))
    decreases |calls| - c
  {
    var (w1, ok) := Invoke(calls[c].op, p, w, o);
    EffectOnHistory(calls[c].op, p, w.shared, o(|w.log|));
    if c + 1 < |calls| {
      CallsWrite(calls, c + 1, st, p, w1, o);
    } else {
      assert RunCalls(calls, c + 1, p, w1, o) == (w1, true);
    }
  }

  /** One executed step writes its status, or none if it has none. */
  lemma ExecuteWrites(kind: StepKind, p: Payment, w: World, o: Oracle)
    requires Known(w.shared, p)
    ensures var (w', ok) := StepOf(kind, o).exec(p, w);
            && Known(w'.shared, p)
            && (ok ==> w'.shared.tables.payments[p.id].status
                       == match StepStatus(kind) case Some(s) => s case None => w.shared.tables.payments[p.id].status)
  {
    forall c: nat | c < |ExecCalls(kind)| {
      ExecCallStatus(kind, c);
    }
    CallsWrite(ExecCalls(kind), 0, StepStatus(kind), p, w, o);
  }

  /** The status the table holds once k steps of a fresh payment have completed. */
  function PersistedAfter(kinds: seq<StepKind>, k: nat): Status
    requires k <= |kinds|
  {
    if k == 0 then Received
    else match StepStatus(kinds[k - 1]) case Some(s) => s case None => PersistedAfter(kinds, k - 1)
  }

  lemma {:induction false} StatusAfterPrefix(settles: bool, o: Oracle, p: Payment, w: World, k: nat)
    requires Known(w.shared, p) && w.shared.tables.payments[p.id].status == Received
    requires k <= |Pipeline(settles)| && Succeed(Wired(settles, o), k, p, w)
    ensures var w' := After(Wired(settles, o), k, p, w);
            Known(w'.shared, p) && w'.shared.tables.payments[p.id].status == PersistedAfter(Pipeline(settles), k)
    decreases k
  {
    if k > 0 {
      StatusAfterPrefix(settles, o, p, w, k - 1);
      var before := After(Wired(settles, o), k - 1, p, w);
      assert Wired(settles, o)[k - 1].exec(p, before).1;
      ExecuteWrites(Pipeline(settles)[k - 1], p, before, o);
    }
  }

  /** statusToStepCount is right for the wired pipeline up to trailing steps that write no status. */
  lemma {:induction false} StepCountOfPrefix(settles: bool, k: nat)
    requires k <= |Pipeline(settles)|
    ensures var last := if settles then 8 else 7;
            StatusToStepCount(PersistedAfter(Pipeline(settles), k)) == if k < last then k else last
    ensures StatusToStepCount(Aborted) == 0
  {
    var kinds := Pipeline(settles);
    assert kinds[..7] == [Validate, Lookup, Route, Quote, Screen, Reserve, Commit];
    if k > 0 {
      if k <= 7 {
        assert kinds[k - 1] == kinds[..7][k - 1];
      } else {
        StepCountOfPrefix(settles, k - 1);
      }
    }
  }

  /** Compensating the steps that come after the last status changes nothing. */
  lemma {:induction false} TrailingCompensationsAreIdle(settles: bool, o: Oracle, p: Payment, w: World, n: nat, k: nat)
    requires n <= k <= |Pipeline(settles)|
    requires forall i :: n <= i < k ==> CompCalls(Pipeline(settles)[i]) == []
    ensures Rollback(Wired(settles, o), k, p, w).world == Rollback(Wired(settles, o), n, p, w).world
    ensures Rollback(Wired(settles, o), k, p, w).ok == Rollback(Wired(settles, o), n, p, w).ok
    decreases k
  {
    if n < k {
      assert Wired(settles, o)[k - 1].comp(p, w) == (w, true);
      TrailingCompensationsAreIdle(settles, o, p, w, n, k - 1);
    }
  }

  /** How many steps CompensatePayment undoes for a payment whose first k steps completed, counter at 0. */
  lemma {:induction false} DepthOfPrefix(settles: bool, k: nat)
    requires k <= |Pipeline(settles)|
    ensures var depth := CompensationDepth(0, PersistedAfter(Pipeline(settles), k), |Pipeline(settles)|);
            depth <= k && forall i :: depth <= i < k ==> CompCalls(Pipeline(settles)[i]) == []
  {
    StepCountOfPrefix(settles, k);
  }

  /**
   * With the saga's own counter at 0, CompensatePayment on the persisted payment does exactly what
   * Run's rollback of the completed prefix does, for every prefix of the wired pipeline, unless a
   * compensation errors; and it reports an error exactly when that rollback met one.
   */
  lemma {:induction false} CompensatePaymentMatchesRollback(settles: bool, o: Oracle, p: Payment, w: World, k: nat)
    requires Known(w.shared, p) && w.shared.tables.payments[p.id].status == Received
    requires k <= |Pipeline(settles)| && Succeed(Wired(settles, o), k, p, w)
    ensures var steps := Wired(settles, o);
            var reached := After(steps, k, p, w);
            && p.id in reached.shared.tables.payments
            && var depth := CompensationDepth(0, reached.shared.tables.payments[p.id].status, |steps|);
               var own, recovered := Rollback(steps, k, p, reached), StrictRollback(steps, depth, p, reached);
               && (recovered.ok <==> own.ok)
               && (recovered.ok ==> recovered.world == own.world)
  {
    var steps := Wired(settles, o);
    var reached := After(steps, k, p, w);
    StatusAfterPrefix(settles, o, p, w, k);
    DepthOfPrefix(settles, k);
    var depth := CompensationDepth(0, PersistedAfter(Pipeline(settles), k), |steps|);
    TrailingCompensationsAreIdle(settles, o, p, reached, depth, k);
    StrictRollbackAgrees(steps, depth, p, reached);
  }

  // ------------------------------------------------------------ the shared counter

  ghost predicate AlwaysReachable(o: Oracle) {
    forall n: nat :: o(n).reachable && o(n).answered
  }

  /** What undoing the first n steps does to the book when every call gets through. */
  function Undone(b: Bank.Book, p: Payment, n: nat): Bank.Book {
    var reversed := if n > 6 then Bank.Apply(b, Bank.Withdraw, p.destAccount, p.amount) else b;
    if n > 5 then Bank.Apply(reversed, Bank.Release, p.sourceAccount, p.amount) else reversed
  }

  /** A status write or bank call that gets through. */
  lemma ReachableCall(op: Op, p: Payment, w: World, o: Oracle)
    requires Known(w.shared, p) && AlwaysReachable(o) && (op.WriteStatus? || op.BankCall?)
    ensures var (w', ok) := Invoke(op, p, w, o);
            && Known(w'.shared, p)
            && (op.WriteStatus? ==> ok && w'.shared.book == w.shared.book)
            && (op.BankCall? ==>
                  w'.shared.book == Bank.Apply(w.shared.book, op.operation, AccountOf(op.operation, p), p.amount))
  {
    EffectOnHistory(op, p, w.shared, o(|w.log|));
  }

  function UndoneBy(kind: StepKind, b: Bank.Book, p: Payment): Bank.Book {
    match kind
    case Reserve => Bank.Apply(b, Bank.Release, p.sourceAccount, p.amount)
    case Commit => Bank.Apply(b, Bank.Withdraw, p.destAccount, p.amount)
    case _ => b
  }

  lemma CompensateOnBook(kind: StepKind, p: Payment, w: World, o: Oracle)
    requires Known(w.shared, p) && AlwaysReachable(o)
    ensures var (w', ok) := StepOf(kind, o).comp(p, w);
            ok && Known(w'.shared, p) && w'.shared.book == UndoneBy(kind, w.shared.book, p)
  {
    var calls := CompCalls(kind);
    if |calls| == 1 {
      RunOne(calls, p, w, o);
      ReachableCall(calls[0].op, p, w, o);
    } else if |calls| == 2 {
      RunTwo(calls, p, w, o);
      ReachableCall(calls[0].op, p, w, o);
      ReachableCall(calls[1].op, p, Invoke(calls[0].op, p, w, o).0, o);
    } else {
      assert RunCalls(calls, 0, p, w, o) == (w, true);
    }
  }

  lemma UndoneStep(settles: bool, b: Bank.Book, p: Payment, n: nat)
    requires 0 < n <= |Pipeline(settles)|
    ensures Undone(UndoneBy(Pipeline(settles)[n - 1], b, p), p, n - 1) == Undone(b, p, n)
  {
    var kinds := Pipeline(settles);
    assert kinds[..7] == [Validate, Lookup, Route, Quote, Screen, Reserve, Commit];
    if n <= 7 {
      assert kinds[n - 1] == kinds[..7][n - 1];
    }
  }

  lemma {:induction false} CompensationOnBook(settles: bool, o: Oracle, p: Payment, w: World, n: nat)
    requires Known(w.shared, p) && AlwaysReachable(o) && n <= |Pipeline(settles)|
    ensures var r := StrictRollback(Wired(settles, o), n, p, w);
            r.ok && r.world.shared.book == Undone(w.shared.book, p, n)
    decreases n
  {
    if n > 0 {
      CompensateOnBook(Pipeline(settles)[n - 1], p, w, o);
      UndoneStep(settles, w.shared.book, p, n);
      var w1 := StepOf(Pipeline(settles)[n - 1], o).comp(p, w).0;
      assert Wired(settles, o)[n - 1].comp(p, w) == (w1, true);
      CompensationOnBook(settles, o, p, w1, n - 1);
    }
  }

  /** The balances after n steps of a reservation were undone: the hold goes back exactly for some n. */
  predicate UndoneIs(b: Bank.Book, a': map<string, int>, p: Payment, n: nat)
    requires p.sourceAccount in b.accounts
  {
    var released := b.accounts[p.sourceAccount := b.accounts[p.sourceAccount] + p.amount];
    if n < 6 then a' == b.accounts && a' != released
    else if n > 6 && Bank.Accepts(b, Bank.Withdraw, p.destAccount, p.amount)
    then a' == released[p.destAccount := b.accounts[p.destAccount] - p.amount] && a' != released
    else a' == released
  }

  lemma UndoneAccounts(b: Bank.Book, p: Payment, n: nat)
    requires p.amount > 0 && p.sourceAccount != p.destAccount && p.sourceAccount in b.accounts
    ensures UndoneIs(b, Undone(b, p, n).accounts, p, n)
  {
    var a, a' := b.accounts, Undone(b, p, n).accounts;
    var released := a[p.sourceAccount := a[p.sourceAccount] + p.amount];
    if n < 6 {
      assert a'[p.sourceAccount] != released[p.sourceAccount];
    } else if n > 6 && Bank.Accepts(b, Bank.Withdraw, p.destAccount, p.amount) {
      assert a'[p.destAccount] != released[p.destAccount];
    }
  }

  /** The hold, and nothing else, is given back exactly for these counters; what the others do. */
  predicate RecoveredIff(b: Bank.Book, a': map<string, int>, p: Payment, counter: int)
    requires p.sourceAccount in b.accounts
  {
    var released := b.accounts[p.sourceAccount := b.accounts[p.sourceAccount] + p.amount];
    var reversible := Bank.Accepts(b, Bank.Withdraw, p.destAccount, p.amount);
    && (a' == released <==> counter <= 0 || counter == 6 || (counter > 6 && !reversible))
    && (counter > 6 && reversible ==> a' == released[p.destAccount := b.accounts[p.destAccount] - p.amount])
    && (0 < counter < 6 ==> a' == b.accounts)
  }

  lemma UndoneByCounter(b: Bank.Book, a': map<string, int>, p: Payment, counter: int, stepCount: nat)
    requires p.sourceAccount in b.accounts && stepCount >= 9
    requires UndoneIs(b, a', p, CompensationDepth(counter, Reserved, stepCount))
    ensures RecoveredIff(b, a', p, counter)
  {
  }

  /**
   * Why the counter must be 0. For a payment persisted as RESERVED, with every call succeeding,
   * CompensatePayment gives back the hold and does nothing else if and only if the counter left by
   * other payments is not positive, or is 6, or is larger and the bank refuses the reversal at the
   * destination. Otherwise a larger counter also takes the amount from the destination, which was
   * never credited, and a smaller one keeps the hold.
   */
  lemma {:induction false} ReservedIsRecoveredIff(settles: bool, o: Oracle, p: Payment, w: World, counter: int)
    requires Known(w.shared, p) && AlwaysReachable(o)
    requires w.shared.tables.payments[p.id].status == Reserved
    requires p.amount > 0 && p.sourceAccount != p.destAccount && p.sourceAccount in w.shared.book.accounts
    ensures var depth := CompensationDepth(counter, Reserved, |Pipeline(settles)|);
            var recovered := StrictRollback(Wired(settles, o), depth, p, w).world;
            RecoveredIff(w.shared.book, recovered.shared.book.accounts, p, counter)
  {
    var depth := CompensationDepth(counter, Reserved, |Pipeline(settles)|);
    CompensationOnBook(settles, o, p, w, depth);
    UndoneAccounts(w.shared.book, p, depth);
    UndoneByCounter(w.shared.book, Undone(w.shared.book, p, depth).accounts, p, counter, |Pipeline(settles)|);
  }
}
