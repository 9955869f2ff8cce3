/** The sweeper: recovers expired reservations from their persisted status. */
module Sweep {
  import opened Domain
  import opened SagaCore
  import opened Steps
  import opened Recovery
  import Bank
  import Interleaving
  import Repository

  /** The expired reservations of a table that no other transaction has locked, each once, in any order. */
  ghost predicate Enumerates(t: Repository.Tables, now: int, locked: set<PaymentId>, order: seq<PaymentId>) {
    && (forall id :: id in order <==> id in t.payments && Repository.Expired(t.payments[id], now) && id !in locked)
    && (forall i, j :: 0 <= i < j < |order| ==> order[i] != order[j])
  }

  /** Load one payment and compensate it. */
  function Recover(steps: seq<Step<Payment, World>>, counter: int, id: PaymentId, w: World): World {
    if id !in w.shared.tables.payments then w
    else
      var row := w.shared.tables.payments[id];
      StrictRollback(steps, CompensationDepth(counter, row.status, |steps|), row.payment, w).world
  }

  /** Recover one payment, unless it cannot be loaded. */
  function RecoverLoaded(steps: seq<Step<Payment, World>>, counter: int, id: PaymentId, unloaded: set<PaymentId>,
                         w: World): World
  {
    if id in unloaded then w else Recover(steps, counter, id, w)
  }

  /** Recover order[i], order[i+1], ... */
  function SweepFrom(steps: seq<Step<Payment, World>>, counter: int, order: seq<PaymentId>, i: nat,
                     unloaded: set<PaymentId>, w: World): World
    requires i <= |order|
    decreases |order| - i
  {
    if i == |order| then w
    else
      SweepFrom(steps, counter, order, i + 1, unloaded, RecoverLoaded(steps, counter, order[i], unloaded, w))
  }

  /** The world in which that sweep reaches the payment `id`. */
  function Reached(steps: seq<Step<Payment, World>>, counter: int, order: seq<PaymentId>, i: nat,
                   unloaded: set<PaymentId>, w: World, id: PaymentId): World
    requires i <= |order|
    decreases |order| - i
  {
    if i == |order| || order[i] == id then w
    else
      Reached(steps, counter, order, i + 1, unloaded, RecoverLoaded(steps, counter, order[i], unloaded, w), id)
  }

  class Sweeper {
    const saga: Saga<Payment, World>

    constructor (saga: Saga<Payment, World>)
      ensures this.saga == saga
    {
      this.saga := saga;
    }

    /** `expired` is what FindExpiredReservations returned, None if it failed. */
    method SweepOnce(expired: Option<seq<PaymentId>>, unloaded: set<PaymentId>, w0: World) returns (w: World)
      ensures w == match expired
                   case None => w0
                   case Some(order) => SweepFrom(saga.steps, saga.completedSteps, order, 0, unloaded, w0)
    {
      w := w0;
      if expired.None? {
        return;
      }
      var order := expired.value;
      for i := 0 to |order|
        invariant SweepFrom(saga.steps, saga.completedSteps, order, i, unloaded, w)
               == SweepFrom(saga.steps, saga.completedSteps, order, 0, unloaded, w0)
      {
        var id := order[i];
        if id in unloaded || id !in w.shared.tables.payments {
          continue;
        }
        var row := w.shared.tables.payments[id];
        var w1, ok, _ := saga.CompensatePayment(row.status, row.payment, w);
        w := w1; // an error is only logged
      }
    }
  }

  // ------------------------------------------------------------ compensating one payment leaves the others alone

  /** How many releases of the payment took effect, answered or not. */
  function Releases(log: seq<Entry>, id: PaymentId): nat {
    multiset(log)[Entry(id, BankCall(Bank.Release), true, true)]
    + multiset(log)[Entry(id, BankCall(Bank.Release), true, false)]
  }

  /** Only the row of p changed, and of that only the status. */
  ghost predicate OnlyRow(p: PaymentId, t: Repository.Tables, t': Repository.Tables) {
    && t'.Valid()
    && t'.payments.Keys == t.payments.Keys
    && (forall id :: id in t.payments ==> SameButStatus(t.payments[id], t'.payments[id]))
    && (forall id :: id in t.payments && id != p ==> t'.payments[id] == t.payments[id])
  }

  predicate SameButStatus(r: Repository.Row, r': Repository.Row) {
    r'.payment == r.payment && r'.expiresAt == r.expiresAt
  }

  lemma OnlyTouchesSelf(p: PaymentId, w: World)
    requires w.shared.tables.Valid()
    ensures OnlyTouches(p, w, w)
  {
  }

  /** Only p was worked on: other rows, all expiry times and the set of accounts are as before. */
  ghost predicate OnlyTouches(p: PaymentId, w: World, w': World) {
    && OnlyRow(p, w.shared.tables, w'.shared.tables)
    && w'.shared.book.accounts.Keys == w.shared.book.accounts.Keys
    && (forall id :: id != p ==> Releases(w'.log, id) == Releases(w.log, id))
  }

  lemma OnlyTouchesTrans(p: PaymentId, w: World, w1: World, w2: World)
    requires OnlyTouches(p, w, w1) && OnlyTouches(p, w1, w2)
    ensures OnlyTouches(p, w, w2)
  {
  }

  lemma ReleasesAppend(log: seq<Entry>, e: Entry, id: PaymentId)
    ensures Releases(log + [e], id)
         == Releases(log, id) + if e.payment == id && e.op == BankCall(Bank.Release) && e.done then 1 else 0
  {
  }

  lemma WriteOnlyRow(t: Repository.Tables, id: PaymentId, to: Status, healthy: bool)
    requires t.Valid() && id in t.payments
    ensures OnlyRow(id, t, Repository.Transact(t, Repository.UpdateStatus(id, to), healthy))
  {
    Repository.StatusUpdateRows(t, id, to, healthy);
  }

  lemma OneEntryOnlyTouches(p: PaymentId, w: World, shared: Shared, op: Op, done: bool, ok: bool)
    requires OnlyRow(p, w.shared.tables, shared.tables)
    requires shared.book.accounts.Keys == w.shared.book.accounts.Keys
    ensures OnlyTouches(p, w, World(shared, w.log + [Entry(p, op, done, ok)]))
  {
    forall id | id != p
      ensures Releases(w.log + [Entry(p, op, done, ok)], id) == Releases(w.log, id)
    {
      ReleasesAppend(w.log, Entry(p, op, done, ok), id);
    }
  }

  lemma WriteOnlyTouches(to: Status, p: Payment, w: World, o: Oracle)
    requires Known(w.shared, p)
    ensures OnlyTouches(p.id, w, Invoke(WriteStatus(to), p, w, o).0)
  {
    var (s, done) := Effect(WriteStatus(to), p, w.shared, o(|w.log|));
    WriteOnlyRow(w.shared.tables, p.id, to, o(|w.log|).reachable);
    OneEntryOnlyTouches(p.id, w, s, WriteStatus(to), done, Seen(WriteStatus(to), done, o(|w.log|)));
  }

  lemma BankEffect(operation: Bank.Operation, p: Payment, s: Shared, t: Turn)
    ensures var s' := Effect(BankCall(operation), p, s, t).0;
            s'.tables == s.tables && s'.book.accounts.Keys == s.book.accounts.Keys
  {
  }

  lemma BankOnlyTouches(operation: Bank.Operation, p: Payment, w: World, o: Oracle)
    requires Known(w.shared, p)
    ensures OnlyTouches(p.id, w, Invoke(BankCall(operation), p, w, o).0)
  {
    var (s, done) := Effect(BankCall(operation), p, w.shared, o(|w.log|));
    BankEffect(operation, p, w.shared, o(|w.log|));
    OnlyTouchesSelf(p.id, w);
    OneEntryOnlyTouches(p.id, w, s, BankCall(operation), done, Seen(BankCall(operation), done, o(|w.log|)));
  }

  lemma CallOnlyTouches(op: Op, p: Payment, w: World, o: Oracle)
    requires Known(w.shared, p) && (op.WriteStatus? || op.BankCall?)
    ensures OnlyTouches(p.id, w, Invoke(op, p, w, o).0)
  {
    if op.WriteStatus? {
      WriteOnlyTouches(op.to, p, w, o);
    } else {
      BankOnlyTouches(op.operation, p, w, o);
    }
  }

  lemma CompensateOnlyTouches(kind: StepKind, p: Payment, w: World, o: Oracle)
    requires Known(w.shared, p)
    ensures OnlyTouches(p.id, w, StepOf(kind, o).comp(p, w).0)
  {
    var calls := CompCalls(kind);
    if |calls| == 1 {
      RunOne(calls, p, w, o);
      CallOnlyTouches(calls[0].op, p, w, o);
    } else if |calls| == 2 {
      RunTwo(calls, p, w, o);
      CallOnlyTouches(calls[0].op, p, w, o);
      var w1 := Invoke(calls[0].op, p, w, o).0;
      CallOnlyTouches(calls[1].op, p, w1, o);
      OnlyTouchesTrans(p.id, w, w1, Invoke(calls[1].op, p, w1, o).0);
    } else {
      assert RunCalls(calls, 0, p, w, o) == (w, true);
    }
  }

  /** From a world that knows p, only p was worked on. */
  ghost predicate Tame(p: Payment, w: World, w': World) {
    Known(w.shared, p) ==> OnlyTouches(p.id, w, w')
  }

  lemma TameTrans(p: Payment, a: World, b: World, c: World)
    requires Tame(p, a, b) && Tame(p, b, c)
    ensures Tame(p, a, c)
  {
    if Known(a.shared, p) {
      OnlyTouchesTrans(p.id, a, b, c);
    }
  }

  lemma {:induction false} CompensationOnlyTouches(settles: bool, o: Oracle, p: Payment, w: World, n: nat)
    requires Known(w.shared, p) && n <= |Pipeline(settles)|
    ensures OnlyTouches(p.id, w, StrictRollback(Wired(settles, o), n, p, w).world)
  {
    var steps := Wired(settles, o);
    ghost var tame := (a: World, b: World) => Tame(p, a, b);
    forall a: World
      ensures tame(a, a)
    {
      if Known(a.shared, p) {
        OnlyTouchesSelf(p.id, a);
      }
    }
    forall a: World, b: World, c: World | tame(a, b) && tame(b, c)
      ensures tame(a, c)
    {
      TameTrans(p, a, b, c);
    }
    forall i, a: World | 0 <= i < |steps|
      ensures tame(a, steps[i].comp(p, a).0)
    {
      if Known(a.shared, p) {
        CompensateOnlyTouches(Pipeline(settles)[i], p, a, o);
      }
    }
    StrictRollbackRelates(steps, n, p, w, tame);
    assert tame(w, StrictRollback(steps, n, p, w).world);
  }

  lemma RecoverLoadedOnlyTouches(settles: bool, o: Oracle, counter: int, id: PaymentId, unloaded: set<PaymentId>,
                                 w: World)
    requires w.shared.tables.Valid()
    ensures OnlyTouches(id, w, RecoverLoaded(Wired(settles, o), counter, id, unloaded, w))
  {
    if id in unloaded {
      OnlyTouchesSelf(id, w);
    } else {
      RecoverOnlyTouches(settles, o, counter, id, w);
    }
  }

  lemma RecoverOnlyTouches(settles: bool, o: Oracle, counter: int, id: PaymentId, w: World)
    requires w.shared.tables.Valid()
    ensures OnlyTouches(id, w, Recover(Wired(settles, o), counter, id, w))
  {
    if id in w.shared.tables.payments {
      var row := w.shared.tables.payments[id];
      CompensationOnlyTouches(settles, o, row.payment, w, CompensationDepth(counter, row.status, |Pipeline(settles)|));
    }
  }

  // ------------------------------------------------------------ one reservation recovered, whatever fails

  /** A payment persisted as RESERVED. */
  predicate Held(s: Shared, id: PaymentId) {
    s.tables.Valid() && id in s.tables.payments && s.tables.payments[id].status == Reserved
  }

  /** The release made from w gets through: the call is reachable and the bank knows the account. */
  predicate ReleaseThrough(o: Oracle, w: World, p: Payment) {
    o(|w.log|).reachable && p.sourceAccount in w.shared.book.accounts
  }

  /** The ABORTED write that follows that release gets through. */
  predicate AbortThrough(o: Oracle, w: World) {
    o(|w.log| + 1).reachable
  }

  /** What happened to one payment between two worlds: released or not, aborted or not, and nothing else. */
  predicate Handled(id: PaymentId, w: World, w': World, released: bool, aborted: bool) {
    && id in w.shared.tables.payments && id in w'.shared.tables.payments
    && var row := w.shared.tables.payments[id];
       && w'.shared.tables.payments[id] == (if aborted then row.(status := Aborted) else row)
       && Releases(w'.log, id) == (if released then Releases(w.log, id) + 1 else Releases(w.log, id))
  }

  /** The caller saw the call succeed. */
  predicate Confirmed(t: Turn) {
    t.reachable && t.answered
  }

  /** One call for the payment: it released, or aborted, or neither. */
  ghost predicate CallMade(p: Payment, w: World, w': World, released: bool, aborted: bool) {
    && Known(w'.shared, p)
    && |w'.log| == |w.log| + 1
    && w'.shared.book.accounts.Keys == w.shared.book.accounts.Keys
    && Handled(p.id, w, w', released, aborted)
  }

  /** A compensating bank call: of the payment only a release is noted. */
  lemma BankCalled(operation: Bank.Operation, p: Payment, w: World, o: Oracle)
    requires Known(w.shared, p) && (operation.Release? || operation.Withdraw?)
    ensures CallMade(p, w, Invoke(BankCall(operation), p, w, o).0, operation.Release? && ReleaseThrough(o, w, p), false)
  {
    var w' := Invoke(BankCall(operation), p, w, o).0;
    ReleasesAppend(w.log, w'.log[|w.log|], p.id);
  }

  lemma AbortCalled(p: Payment, w: World, o: Oracle)
    requires Known(w.shared, p)
    ensures var (w', ok) := Invoke(WriteStatus(Aborted), p, w, o);
            (ok <==> Confirmed(o(|w.log|))) && CallMade(p, w, w', false, o(|w.log|).reachable)
  {
    var w' := Invoke(WriteStatus(Aborted), p, w, o).0;
    Repository.StatusUpdateRows(w.shared.tables, p.id, Aborted, o(|w.log|).reachable);
    ReleasesAppend(w.log, w'.log[|w.log|], p.id);
  }

  /** One compensation, whatever fails: its ABORTED write, if it has one, decides its result. */
  ghost predicate Compensated(kind: StepKind, o: Oracle, p: Payment, w: World, w': World, ok: bool) {
    var calls := |CompCalls(kind)|;
    && Known(w'.shared, p)
    && w'.shared.book.accounts.Keys == w.shared.book.accounts.Keys
    && |w'.log| == |w.log| + calls
    && (ok <==> calls == 0 || Confirmed(o(|w.log| + calls - 1)))
    && Handled(p.id, w, w', kind.Reserve? && ReleaseThrough(o, w, p), calls > 0 && o(|w.log| + calls - 1).reachable)
  }

  /** A bank call and then the ABORTED write. */
  lemma BankThenAbort(kind: StepKind, o: Oracle, p: Payment, w: World, w1: World, w2: World, ok: bool)
    requires kind.Reserve? || kind.Commit?
    requires CallMade(p, w, w1, kind.Reserve? && ReleaseThrough(o, w, p), false)
    requires CallMade(p, w1, w2, false, o(|w1.log|).reachable) && (ok <==> Confirmed(o(|w1.log|)))
    ensures Compensated(kind, o, p, w, w2, ok)
  {
    HandledThen(p.id, w, w1, w2, kind.Reserve? && ReleaseThrough(o, w, p), false, o(|w1.log|).reachable);
  }

  lemma TwoCallsCompensate(kind: StepKind, p: Payment, w: World, o: Oracle)
    requires Known(w.shared, p) && (kind.Reserve? || kind.Commit?)
    ensures var w1 := Invoke(CompCalls(kind)[0].op, p, w, o).0;
            var (w2, ok) := Invoke(WriteStatus(Aborted), p, w1, o);
            Compensated(kind, o, p, w, w2, ok)
  {
    var operation := CompCalls(kind)[0].op.operation;
    var w1 := Invoke(BankCall(operation), p, w, o).0;
    var (w2, ok) := Invoke(WriteStatus(Aborted), p, w1, o);
    BankCalled(operation, p, w, o);
    AbortCalled(p, w1, o);
    BankThenAbort(kind, o, p, w, w1, w2, ok);
  }

  lemma OneCallCompensates(kind: StepKind, p: Payment, w: World, o: Oracle)
    requires Known(w.shared, p) && CompCalls(kind) == [Must(WriteStatus(Aborted))]
    ensures var (w', ok) := Invoke(WriteStatus(Aborted), p, w, o);
            Compensated(kind, o, p, w, w', ok)
  {
    AbortCalled(p, w, o);
  }

  lemma NoCallCompensates(kind: StepKind, p: Payment, w: World, o: Oracle)
    requires Known(w.shared, p) && CompCalls(kind) == []
    ensures Compensated(kind, o, p, w, w, true)
  {
  }

  lemma StepCompensates(kind: StepKind, p: Payment, w: World, o: Oracle)
    requires Known(w.shared, p)
    ensures var (w', ok) := RunCalls(CompCalls(kind), 0, p, w, o);
            Compensated(kind, o, p, w, w', ok)
  {
    var calls := CompCalls(kind);
    if kind.Reserve? || kind.Commit? {
      RunTwo(calls, p, w, o);
      TwoCallsCompensate(kind, p, w, o);
    } else if calls == [] {
      NoCallCompensates(kind, p, w, o);
    } else {
      RunOne(calls, p, w, o);
      OneCallCompensates(kind, p, w, o);
    }
  }

  lemma HandledThen(id: PaymentId, w: World, w1: World, w2: World, released: bool, a1: bool, a2: bool)
    requires Handled(id, w, w1, released, a1) && Handled(id, w1, w2, false, a2)
    ensures Handled(id, w, w2, released, a1 || a2)
  {
  }

  /** Steps whose compensations behave as those of the given kinds. */
  ghost predicate CompensateLike(steps: seq<Step<Payment, World>>, kinds: seq<StepKind>, o: Oracle, p: Payment) {
    && |steps| == |kinds|
    && forall i, v: World {:trigger steps[i].comp(p, v)} :: 0 <= i < |steps| && Known(v.shared, p) ==>
         Compensated(kinds[i], o, p, v, steps[i].comp(p, v).0, steps[i].comp(p, v).1)
  }

  lemma WiredCompensateLike(settles: bool, o: Oracle, p: Payment)
    ensures CompensateLike(Wired(settles, o), Pipeline(settles), o, p)
  {
    var steps := Wired(settles, o);
    forall i, v: World | 0 <= i < |steps| && Known(v.shared, p)
      ensures Compensated(Pipeline(settles)[i], o, p, v, steps[i].comp(p, v).0, steps[i].comp(p, v).1)
    {
      StepCompensates(Pipeline(settles)[i], p, v, o);
    }
  }

  // ------------------------------------------------------------ with every counter

  /**
   * The release gets through when steps n-1 down to 0 are compensated from call number `at` on, stopping at
   * the first error: it waits for the ABORTED writes of the steps above the reservation to be confirmed.
   */
  predicate PaysFrom(kinds: seq<StepKind>, o: Oracle, known: bool, n: nat, at: nat)
    requires n <= |kinds|
  {
    n > 0 &&
    var calls := |CompCalls(kinds[n - 1])|;
    if calls == 0 then PaysFrom(kinds, o, known, n - 1, at)
    else if kinds[n - 1].Reserve? then o(at).reachable && known
    else Confirmed(o(at + calls - 1)) && PaysFrom(kinds, o, known, n - 1, at + calls)
  }

  /** The first ABORTED write of those compensations gets through. */
  predicate ClosesFrom(kinds: seq<StepKind>, o: Oracle, n: nat, at: nat)
    requires n <= |kinds|
  {
    n > 0 &&
    var calls := |CompCalls(kinds[n - 1])|;
    if calls == 0 then ClosesFrom(kinds, o, n - 1, at) else o(at + calls - 1).reachable
  }

  /** Steps before the reservation release nothing. */
  lemma {:induction false} OthersNeverPay(kinds: seq<StepKind>, o: Oracle, known: bool, n: nat, at: nat)
    requires n <= |kinds| && forall i :: 0 <= i < n ==> !kinds[i].Reserve?
    ensures !PaysFrom(kinds, o, known, n, at)
    decreases n
  {
    if n > 0 {
      OthersNeverPay(kinds, o, known, n - 1, at);
      OthersNeverPay(kinds, o, known, n - 1, at + |CompCalls(kinds[n - 1])|);
    }
  }

  /** Two stretches of work on one payment, of which at most one released it. */
  lemma HandledBoth(id: PaymentId, w: World, w1: World, w2: World, r1: bool, a1: bool, r2: bool, a2: bool)
    requires Handled(id, w, w1, r1, a1) && Handled(id, w1, w2, r2, a2) && !(r1 && r2)
    ensures Handled(id, w, w2, r1 || r2, a1 || a2)
  {
  }

  /** What compensating steps n-1 down to 0 from call number `at` on does to the payment. */
  ghost predicate Unwound(kinds: seq<StepKind>, o: Oracle, p: Payment, n: nat, w: World, w': World)
    requires n <= |kinds|
  {
    Handled(p.id, w, w', PaysFrom(kinds, o, p.sourceAccount in w.shared.book.accounts, n, |w.log|),
            ClosesFrom(kinds, o, n, |w.log|))
  }

  /** At most one step reserves. */
  predicate ReservesOnce(kinds: seq<StepKind>) {
    forall i, j :: 0 <= i < j < |kinds| ==> !(kinds[i].Reserve? && kinds[j].Reserve?)
  }

  /** A compensation that ends the rollback, because it failed. */
  lemma FailedStepUnwinds(kinds: seq<StepKind>, o: Oracle, p: Payment, n: nat, w: World, w1: World)
    requires 0 < n <= |kinds| && Compensated(kinds[n - 1], o, p, w, w1, false)
    ensures Unwound(kinds, o, p, n, w, w1)
  {
  }

  /** A compensation that succeeded, and what follows it. */
  lemma {:induction false} StepThenUnwinds(kinds: seq<StepKind>, o: Oracle, p: Payment, n: nat, w: World, w1: World,
                                           w2: World)
    requires 0 < n <= |kinds| && ReservesOnce(kinds)
    requires Compensated(kinds[n - 1], o, p, w, w1, true) && Unwound(kinds, o, p, n - 1, w1, w2)
    ensures Unwound(kinds, o, p, n, w, w2)
  {
    var known, kind := p.sourceAccount in w.shared.book.accounts, kinds[n - 1];
    if kind.Reserve? {
      OthersNeverPay(kinds, o, known, n - 1, |w1.log|);
    }
    HandledBoth(p.id, w, w1, w2, kind.Reserve? && ReleaseThrough(o, w, p),
                CompCalls(kind) != [] && o(|w.log| + |CompCalls(kind)| - 1).reachable,
                PaysFrom(kinds, o, known, n - 1, |w1.log|), ClosesFrom(kinds, o, n - 1, |w1.log|));
  }

  /** Compensating the first n steps of a list with one reservation, whatever fails. */
  lemma {:induction false} RollbackHandled(steps: seq<Step<Payment, World>>, kinds: seq<StepKind>, o: Oracle,
                                           p: Payment, w: World, n: nat)
    requires Known(w.shared, p) && n <= |kinds| && CompensateLike(steps, kinds, o, p) && ReservesOnce(kinds)
    ensures Unwound(kinds, o, p, n, w, StrictRollback(steps, n, p, w).world)
    decreases n
  {
    if n > 0 {
      var (w1, ok) := steps[n - 1].comp(p, w);
      assert Compensated(kinds[n - 1], o, p, w, w1, ok);
      if ok {
        RollbackHandled(steps, kinds, o, p, w1, n - 1);
        StepThenUnwinds(kinds, o, p, n, w, w1, StrictRollback(steps, n - 1, p, w1).world);
      } else {
        FailedStepUnwinds(kinds, o, p, n, w, w1);
      }
    }
  }

  /** Recovering a RESERVED payment from w gives its hold back, or closes it. */
  predicate RecoveryPays(settles: bool, o: Oracle, counter: int, w: World, p: Payment) {
    PaysFrom(Pipeline(settles), o, p.sourceAccount in w.shared.book.accounts,
             CompensationDepth(counter, Reserved, |Pipeline(settles)|), |w.log|)
  }

  predicate RecoveryCloses(settles: bool, o: Oracle, counter: int, w: World) {
    ClosesFrom(Pipeline(settles), o, CompensationDepth(counter, Reserved, |Pipeline(settles)|), |w.log|)
  }

  /** Steps that compensate with no call change nothing. */
  lemma {:induction false} IdleTop(kinds: seq<StepKind>, o: Oracle, known: bool, n: nat, m: nat, at: nat)
    requires m <= n <= |kinds| && forall i :: m <= i < n ==> CompCalls(kinds[i]) == []
    ensures PaysFrom(kinds, o, known, n, at) == PaysFrom(kinds, o, known, m, at)
    ensures ClosesFrom(kinds, o, n, at) == ClosesFrom(kinds, o, m, at)
    decreases n
  {
    if m < n {
      IdleTop(kinds, o, known, n - 1, m, at);
    }
  }

  /** Below the reservation there is always an ABORTED write, and it comes first. */
  lemma {:induction false} ClosesBelow(settles: bool, o: Oracle, n: nat, at: nat)
    requires 0 < n <= 5
    ensures ClosesFrom(Pipeline(settles), o, n, at) <==> o(at).reachable
  {
    Interleaving.PipelineShape(settles);
    assert Pipeline(settles)[n - 1] == Pipeline(settles)[..7][n - 1];
    if 1 < n {
      ClosesBelow(settles, o, n - 1, at);
    }
  }

  lemma {:induction false} DepthAtReserve(settles: bool, o: Oracle, known: bool, n: nat, at: nat)
    requires n == 6
    ensures PaysFrom(Pipeline(settles), o, known, n, at) <==> o(at).reachable && known
    ensures ClosesFrom(Pipeline(settles), o, n, at) <==> o(at + 1).reachable
  {
    Interleaving.PipelineShape(settles);
  }

  lemma {:induction false} DepthAtCommit(settles: bool, o: Oracle, known: bool, n: nat, at: nat)
    requires n == 7
    ensures PaysFrom(Pipeline(settles), o, known, n, at) <==> Confirmed(o(at + 1)) && o(at + 2).reachable && known
    ensures ClosesFrom(Pipeline(settles), o, n, at) <==> o(at + 1).reachable
  {
    Interleaving.PipelineShape(settles);
    DepthAtReserve(settles, o, known, n - 1, at + 2);
  }

  lemma {:induction false} DepthAtSettle(o: Oracle, known: bool, n: nat, at: nat)
    requires n == 8
    ensures PaysFrom(Pipeline(true), o, known, n, at)
            <==> Confirmed(o(at)) && Confirmed(o(at + 2)) && o(at + 3).reachable && known
    ensures ClosesFrom(Pipeline(true), o, n, at) <==> o(at).reachable
  {
    assert Pipeline(true)[n - 1] == Settle;
    DepthAtCommit(true, o, known, n - 1, at + 1);
  }

  /**
   * What each value of the shared counter makes of a reservation. Not positive or 6: its own release and
   * ABORTED write. From 1 to 5: it is closed by the first write and never given back. Above 6: the release
   * waits for the ABORTED writes of the commit step, and of the settlement step if it is wired, to be confirmed,
   * and the first of those writes closes it.
   */
  predicate CounterCase(settles: bool, o: Oracle, counter: int, at: nat, known: bool, pays: bool, closes: bool) {
    if counter <= 0 || counter == 6 then (pays <==> o(at).reachable && known) && (closes <==> o(at + 1).reachable)
    else if counter < 6 then !pays && (closes <==> o(at).reachable)
    else if counter == 7 || !settles
    then (pays <==> Confirmed(o(at + 1)) && o(at + 2).reachable && known) && (closes <==> o(at + 1).reachable)
    else (pays <==> Confirmed(o(at)) && Confirmed(o(at + 2)) && o(at + 3).reachable && known)
         && (closes <==> o(at).reachable)
  }

  lemma {:induction false} AboveReserve(settles: bool, o: Oracle, counter: int, at: nat, known: bool, n: nat)
    requires counter > 6 && n == CompensationDepth(counter, Reserved, |Pipeline(settles)|)
    ensures CounterCase(settles, o, counter, at, known, PaysFrom(Pipeline(settles), o, known, n, at),
                        ClosesFrom(Pipeline(settles), o, n, at))
  {
    Interleaving.PipelineShape(settles);
    if settles && n > 7 {
      IdleTop(Pipeline(settles), o, known, n, 8, at);
      DepthAtSettle(o, known, 8, at);
    } else {
      IdleTop(Pipeline(settles), o, known, n, 7, at);
      DepthAtCommit(settles, o, known, 7, at);
    }
  }

  lemma {:induction false} CounterCases(settles: bool, o: Oracle, counter: int, w: World, p: Payment)
    ensures CounterCase(settles, o, counter, |w.log|, p.sourceAccount in w.shared.book.accounts,
                        RecoveryPays(settles, o, counter, w, p), RecoveryCloses(settles, o, counter, w))
  {
    var n := CompensationDepth(counter, Reserved, |Pipeline(settles)|);
    var known := p.sourceAccount in w.shared.book.accounts;
    Interleaving.PipelineShape(settles);
    if counter > 6 {
      AboveReserve(settles, o, counter, |w.log|, known, n);
    } else if n < 6 {
      OthersNeverPay(Pipeline(settles), o, known, n, |w.log|);
      ClosesBelow(settles, o, n, |w.log|);
    } else {
      DepthAtReserve(settles, o, known, n, |w.log|);
    }
  }

  /** Recovering a reservation with any counter, whatever fails. */
  lemma RecoverHeld(settles: bool, o: Oracle, counter: int, id: PaymentId, w: World)
    requires Held(w.shared, id)
    ensures Handled(id, w, Recover(Wired(settles, o), counter, id, w),
                    RecoveryPays(settles, o, counter, w, w.shared.tables.payments[id].payment),
                    RecoveryCloses(settles, o, counter, w))
  {
    var p := w.shared.tables.payments[id].payment;
    WiredCompensateLike(settles, o, p);
    Interleaving.PipelineShape(settles);
    RollbackHandled(Wired(settles, o), Pipeline(settles), o, p, w,
                    CompensationDepth(counter, Reserved, |Pipeline(settles)|));
  }

  /** A payment that a sweep does not list is left alone. */
  lemma {:induction false} RestSparesOthers(settles: bool, o: Oracle, counter: int, order: seq<PaymentId>, i: nat,
                                            unloaded: set<PaymentId>, id: PaymentId, w: World)
    requires w.shared.tables.Valid() && id in w.shared.tables.payments && i <= |order| && id !in order[i..]
    ensures Handled(id, w, SweepFrom(Wired(settles, o), counter, order, i, unloaded, w), false, false)
    decreases |order| - i
  {
    if i < |order| {
      RecoverLoadedOnlyTouches(settles, o, counter, order[i], unloaded, w);
      assert order[i] in order[i..];
      RestSparesOthers(settles, o, counter, order, i + 1, unloaded, id,
                       RecoverLoaded(Wired(settles, o), counter, order[i], unloaded, w));
    }
  }

  /** What is left of a sweep, seen from one reservation that it has not reached yet. */
  lemma {:induction false} SweepOfHeld(settles: bool, o: Oracle, counter: int, order: seq<PaymentId>, i: nat,
                                       unloaded: set<PaymentId>, id: PaymentId, w: World)
    requires Held(w.shared, id) && i <= |order|
    requires forall j, k :: i <= j < k < |order| ==> order[j] != order[k]
    ensures var steps, p := Wired(settles, o), w.shared.tables.payments[id].payment;
            var at := Reached(steps, counter, order, i, unloaded, w, id);
            var tried := id in order[i..] && id !in unloaded;
            Handled(id, w, SweepFrom(steps, counter, order, i, unloaded, w),
                    tried && RecoveryPays(settles, o, counter, at, p),
                    tried && RecoveryCloses(settles, o, counter, at))
    decreases |order| - i
  {
    if i < |order| {
      var w1 := RecoverLoaded(Wired(settles, o), counter, order[i], unloaded, w);
      RecoverLoadedOnlyTouches(settles, o, counter, order[i], unloaded, w);
      assert order[i..] == [order[i]] + order[i + 1..];
      if order[i] == id {
        if id !in unloaded {
          RecoverHeld(settles, o, counter, id, w);
        }
        assert id !in order[i + 1..];
        RestSparesOthers(settles, o, counter, order, i + 1, unloaded, id, w1);
      } else {
        SweepOfHeld(settles, o, counter, order, i + 1, unloaded, id, w1);
      }
    }
  }
}
