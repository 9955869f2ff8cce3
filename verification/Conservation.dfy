/** Money over every interleaving of any number of sagas. */
module Conservation {
  import opened Domain
  import opened Sums
  import opened Steps
  import opened Interleaving
  import Bank

  /** What one saga's calls add up to on account `a`. */
  function FlowAt(q: Proc, a: string): int {
    (if a == q.payment.sourceAccount then Flow(q.log, q.payment.amount, true) else 0)
    + (if a == q.payment.destAccount then Flow(q.log, q.payment.amount, false) else 0)
  }

  function FlowsAt(procs: seq<Proc>, a: string): (f: seq<int>)
    ensures |f| == |procs|
  {
    seq(|procs|, i requires 0 <= i < |procs| => FlowAt(procs[i], a))
  }

  function Nets(procs: seq<Proc>): (f: seq<int>)
    ensures |f| == |procs|
  {
    seq(|procs|, i requires 0 <= i < |procs| => Net(procs[i]))
  }

  function Leaks(procs: seq<Proc>): (f: seq<int>)
    ensures |f| == |procs|
  {
    seq(|procs|, i requires 0 <= i < |procs| => DestLeak(procs[i]) - SourceLeak(procs[i]))
  }

  function Amounts(procs: seq<Proc>): (f: seq<int>)
    ensures |f| == |procs|
  {
    seq(|procs|, i requires 0 <= i < |procs| => if procs[i].payment.amount > 0 then procs[i].payment.amount else 0)
  }

  /** The accounts a saga is answerable for exist. */
  predicate Backed(b: Bank.Book, q: Proc) {
    && (OwesSource(q.pc) || SourceLeaked(q) ==> q.payment.sourceAccount in b.accounts)
    && (OwesDest(q.pc) || DestLeaked(q) ==> q.payment.destAccount in b.accounts)
  }

  /** Any number of payments, none of them started; their fields are arbitrary. */
  predicate Fresh(s: State) {
    && Bank.Solvent(s.shared.book)
    && forall i :: 0 <= i < |s.procs| ==> s.procs[i].pc == Exec(0, 0) && s.procs[i].log == []
  }

  /** Balances are the starting balances plus what the logged calls moved, account by account and in total. */
  ghost predicate Accounted(b0: Bank.Book, b: Bank.Book, procs: seq<Proc>) {
    && b.accounts.Keys == b0.accounts.Keys
    && (forall a :: a in b.accounts ==> b.accounts[a] == b0.accounts[a] + SumSeq(FlowsAt(procs, a)))
    && Bank.Total(b) == Bank.Total(b0) + SumSeq(Nets(procs))
  }

  ghost predicate Inv(settles: bool, s0: State, s: State) {
    && |s.procs| == |s0.procs|
    && (forall i :: 0 <= i < |s.procs| ==> s.procs[i].payment == s0.procs[i].payment)
    && (forall i :: 0 <= i < |s.procs| ==> ProcInv(settles, s.procs[i]))
    && (forall i :: 0 <= i < |s.procs| ==> Backed(s.shared.book, s.procs[i]))
    && Bank.Solvent(s.shared.book)
    && Accounted(s0.shared.book, s.shared.book, s.procs)
  }

  lemma FreshWellFormed(settles: bool, s: State)
    requires Fresh(s)
    ensures WellFormed(settles, s) && Inv(settles, s, s)
  {
    PipelineShape(settles);
    assert Pipeline(settles)[0] == Pipeline(settles)[..7][0];
    SumSeqZero(Nets(s.procs));
    forall a {
      SumSeqZero(FlowsAt(s.procs, a));
    }
  }

  /** What one call moves in total, and on account `a`. */
  function Moved(op: Op, done: bool, p: Payment): int {
    if done && op.BankCall? then Bank.Delta(op.operation, p.amount) else 0
  }

  function MovedAt(op: Op, done: bool, p: Payment, a: string): int {
    if op.BankCall? && a == AccountOf(op.operation, p) then Moved(op, done, p) else 0
  }

  /** What one call does to the account book. */
  lemma EffectOnBook(op: Op, p: Payment, s: Shared, t: Turn)
    ensures var (s', done) := Effect(op, p, s, t);
            && s'.book.accounts.Keys == s.book.accounts.Keys
            && (done && op.BankCall? ==> AccountOf(op.operation, p) in s.book.accounts)
            && (forall a :: a in s.book.accounts ==>
                  s'.book.accounts[a] == s.book.accounts[a] + MovedAt(op, done, p, a))
            && Bank.Total(s'.book) == Bank.Total(s.book) + Moved(op, done, p)
            && (Bank.Solvent(s.book) && (op.BankCall? ==> p.amount > 0) ==> Bank.Solvent(s'.book))
  {
    if op.BankCall? {
      Bank.ApplyMovesTotal(s.book, op.operation, AccountOf(op.operation, p), p.amount);
    }
  }

  lemma FlowAfterCall(q: Proc, pc: Pc, op: Op, done: bool, ok: bool, a: string)
    ensures var q' := Logging(q, op, done, ok, pc);
            && Net(q') == Net(q) + Moved(op, done, q.payment)
            && FlowAt(q', a) == FlowAt(q, a) + MovedAt(op, done, q.payment, a)
  {
    FlowAppend(q.log, Entry(q.payment.id, op, done, ok), q.payment.amount, true);
    FlowAppend(q.log, Entry(q.payment.id, op, done, ok), q.payment.amount, false);
  }

  lemma NetsUpdate(procs: seq<Proc>, i: nat, q: Proc)
    requires i < |procs|
    ensures SumSeq(Nets(procs[i := q])) == SumSeq(Nets(procs)) - Net(procs[i]) + Net(q)
  {
    assert Nets(procs[i := q]) == Nets(procs)[i := Net(q)];
    SumSeqUpdate(Nets(procs), i, Net(q));
  }

  lemma FlowsUpdate(procs: seq<Proc>, i: nat, q: Proc, a: string)
    requires i < |procs|
    ensures SumSeq(FlowsAt(procs[i := q], a)) == SumSeq(FlowsAt(procs, a)) - FlowAt(procs[i], a) + FlowAt(q, a)
  {
    assert FlowsAt(procs[i := q], a) == FlowsAt(procs, a)[i := FlowAt(q, a)];
    SumSeqUpdate(FlowsAt(procs, a), i, FlowAt(q, a));
  }

  /** If the book moved exactly as one saga's flows did, everything is still accounted for. */
  lemma AccountedUpdate(b0: Bank.Book, b: Bank.Book, b': Bank.Book, procs: seq<Proc>, i: nat, q: Proc)
    requires i < |procs| && Accounted(b0, b, procs)
    requires b'.accounts.Keys == b.accounts.Keys
    requires Bank.Total(b') == Bank.Total(b) + (Net(q) - Net(procs[i]))
    requires forall a :: a in b.accounts ==> b'.accounts[a] == b.accounts[a] + (FlowAt(q, a) - FlowAt(procs[i], a))
    ensures Accounted(b0, b', procs[i := q])
  {
    NetsUpdate(procs, i, q);
    forall a | a in b'.accounts
      ensures b'.accounts[a] == b0.accounts[a] + SumSeq(FlowsAt(procs[i := q], a))
    {
      FlowsUpdate(procs, i, q, a);
    }
  }

  lemma CallKeepsAccounted(b0: Bank.Book, s: State, i: nat, pc: Pc, op: Op, t: Turn)
    requires i < |s.procs| && Accounted(b0, s.shared.book, s.procs)
    ensures var (shared, done) := Effect(op, s.procs[i].payment, s.shared, t);
            Accounted(b0, shared.book, s.procs[i := Logging(s.procs[i], op, done, Seen(op, done, t), pc)])
  {
    var q := s.procs[i];
    var (shared, done) := Effect(op, q.payment, s.shared, t);
    var q' := Logging(q, op, done, Seen(op, done, t), pc);
    EffectOnBook(op, q.payment, s.shared, t);
    forall a
      ensures Net(q') == Net(q) + Moved(op, done, q.payment)
      ensures FlowAt(q', a) == FlowAt(q, a) + MovedAt(op, done, q.payment, a)
    {
      FlowAfterCall(q, pc, op, done, Seen(op, done, t), a);
    }
    assert Net(q') == Net(q) + Moved(op, done, q.payment) by {
      FlowAfterCall(q, pc, op, done, Seen(op, done, t), "");
    }
    AccountedUpdate(b0, s.shared.book, shared.book, s.procs, i, q');
  }

  lemma CallKeepsBacked(q: Proc, op: Op, s: Shared, t: Turn, next: Pc)
    requires Backed(s.book, q)
    requires var done := Effect(op, q.payment, s, t).1; MoneyMove(q.pc, op, Seen(op, done, t), next)
    ensures var (s', done) := Effect(op, q.payment, s, t);
            Backed(s'.book, Logging(q, op, done, Seen(op, done, t), next))
  {
    var (s', done) := Effect(op, q.payment, s, t);
    EffectOnBook(op, q.payment, s, t);
    SourceLeakedAppend(q, op, done, Seen(op, done, t), next);
    DestLeakedAppend(q, op, done, Seen(op, done, t), next);
  }

  /** One call, seen from the saga that makes it. */
  lemma CallKeepsSaga(settles: bool, q: Proc, s: Shared, t: Turn)
    requires ProcInv(settles, q) && !q.pc.Done? && Backed(s.book, q) && Bank.Solvent(s.book)
    ensures var op := RequestAt(Pipeline(settles), q.pc).op;
            var (s', done) := Effect(op, q.payment, s, t);
            var q' := Called(settles, q, op, done, Seen(op, done, t));
            && ProcInv(settles, q') && Backed(s'.book, q')
            && Bank.Solvent(s'.book) && s'.book.accounts.Keys == s.book.accounts.Keys
  {
    var op := RequestAt(Pipeline(settles), q.pc).op;
    var done := Effect(op, q.payment, s, t).1;
    var ok := Seen(op, done, t);
    if q.pc.Exec? {
      ForwardMove(settles, q.pc.k, q.pc.c, ok);
    } else {
      BackwardMove(settles, q.pc.k, q.pc.c, ok);
    }
    CallKeepsProcInv(settles, q, done, ok);
    CallKeepsBacked(q, op, s, t, Next(Pipeline(settles), q.pc, ok));
    EffectOnBook(op, q.payment, s, t);
  }

  /** Replacing one saga and the shared state keeps the invariant if the parts that changed satisfy it. */
  lemma UpdateKeepsInv(settles: bool, s0: State, s: State, i: nat, q: Proc, shared: Shared)
    requires Inv(settles, s0, s) && i < |s.procs| && q.payment == s.procs[i].payment
    requires ProcInv(settles, q) && Backed(shared.book, q)
    requires Bank.Solvent(shared.book) && shared.book.accounts.Keys == s.shared.book.accounts.Keys
    requires Accounted(s0.shared.book, shared.book, s.procs[i := q])
    ensures Inv(settles, s0, State(shared, s.procs[i := q]))
  {
    var procs := s.procs[i := q];
    forall j | 0 <= j < |procs|
      ensures procs[j].payment == s0.procs[j].payment
      ensures ProcInv(settles, procs[j]) && Backed(shared.book, procs[j])
    {
      if j != i {
        assert ProcInv(settles, s.procs[j]) && Backed(s.shared.book, s.procs[j]);
      }
    }
  }

  lemma AdvanceKeepsInv(settles: bool, s0: State, s: State, a: Action)
    requires WellFormed(settles, s) && Inv(settles, s0, s)
    ensures Inv(settles, s0, Advance(settles, s, a))
  {
    if a.who < |s.procs| && !s.procs[a.who].pc.Done? {
      var q := s.procs[a.who];
      var op := RequestAt(Pipeline(settles), q.pc).op;
      var (shared, done) := Effect(op, q.payment, s.shared, a.turn);
      var q' := Called(settles, q, op, done, Seen(op, done, a.turn));
      CallKeepsSaga(settles, q, s.shared, a.turn);
      CallKeepsAccounted(s0.shared.book, s, a.who, q'.pc, op, a.turn);
      UpdateKeepsInv(settles, s0, s, a.who, q', shared);
    }
  }

  lemma {:induction false} RunKeepsInv(settles: bool, s0: State, schedule: seq<Action>)
    requires Fresh(s0) && WellFormed(settles, s0)
    ensures Inv(settles, s0, Run(settles, s0, schedule))
    decreases |schedule|
  {
    if schedule == [] {
      FreshWellFormed(settles, s0);
    } else {
      var before := schedule[..|schedule| - 1];
      RunKeepsInv(settles, s0, before);
      AdvanceKeepsInv(settles, s0, Run(settles, s0, before), schedule[|schedule| - 1]);
    }
  }

  // ------------------------------------------------------------ the theorems

  /**
   * At every moment of every interleaving no balance is negative, and every balance, and the total,
   * is the starting value plus successful credits and releases minus successful reserves and reversals.
   */
  lemma {:induction false} MoneyIsAccountedFor(settles: bool, s0: State, schedule: seq<Action>)
    requires Fresh(s0) && WellFormed(settles, s0)
    ensures var s := Run(settles, s0, schedule);
            && Bank.Solvent(s.shared.book)
            && Accounted(s0.shared.book, s.shared.book, s.procs)
  {
    RunKeepsInv(settles, s0, schedule);
  }

  /** What a finished saga moved in total is what it leaked. */
  lemma FinishedNets(settles: bool, procs: seq<Proc>)
    requires forall i :: 0 <= i < |procs| ==> procs[i].pc.Done? && ProcInv(settles, procs[i])
    ensures Nets(procs) == Leaks(procs)
  {
    forall i | 0 <= i < |procs|
      ensures Nets(procs)[i] == Leaks(procs)[i]
    {
      assert ProcInv(settles, procs[i]);
    }
  }

  predicate Finished(s: State) {
    forall i :: 0 <= i < |s.procs| ==> s.procs[i].pc.Done?
  }

  /**
   * Once every saga has ended, the total differs from the start by exactly the leaks: amounts credited
   * and never taken back, minus amounts held and never given back. Without a leak it equals the start.
   */
  lemma {:induction false} FinishedTotalIsStartPlusLeaks(settles: bool, s0: State, schedule: seq<Action>)
    requires Fresh(s0) && WellFormed(settles, s0)
    requires Finished(Run(settles, s0, schedule))
    ensures var s := Run(settles, s0, schedule);
            && Bank.Total(s.shared.book) == Bank.Total(s0.shared.book) + SumSeq(Leaks(s.procs))
            && ((forall i :: 0 <= i < |s.procs| ==> !Leaked(s.procs[i])) ==>
                  Bank.Total(s.shared.book) == Bank.Total(s0.shared.book))
  {
    RunKeepsInv(settles, s0, schedule);
    var s := Run(settles, s0, schedule);
    FinishedNets(settles, s.procs);
    if forall i :: 0 <= i < |s.procs| ==> !Leaked(s.procs[i]) {
      SumSeqZero(Leaks(s.procs));
    }
  }

  /**
   * No balance ever exceeds the starting total plus the amounts of all valid payments, so 64-bit
   * arithmetic agrees with this model whenever that sum fits.
   */
  lemma {:induction false} BalancesBounded(settles: bool, s0: State, schedule: seq<Action>, a: string)
    requires Fresh(s0) && WellFormed(settles, s0)
    requires a in Run(settles, s0, schedule).shared.book.accounts
    ensures 0 <= Run(settles, s0, schedule).shared.book.accounts[a]
              <= Bank.Total(s0.shared.book) + SumSeq(Amounts(s0.procs))
  {
    RunKeepsInv(settles, s0, schedule);
    SumMapBounds(Run(settles, s0, schedule).shared.book.accounts, a);
    NetsBounded(settles, s0, Run(settles, s0, schedule));
  }

  lemma {:induction false} NetsBounded(settles: bool, s0: State, s: State)
    requires Inv(settles, s0, s)
    ensures SumSeq(Nets(s.procs)) <= SumSeq(Amounts(s0.procs))
  {
    forall i | 0 <= i < |s.procs|
      ensures Nets(s.procs)[i] <= Amounts(s0.procs)[i]
    {
      NetBounded(settles, s.procs[i]);
    }
    SumSeqMonotone(Nets(s.procs), Amounts(s0.procs));
  }

  /** One saga never adds more than its own amount, and one that fails validation adds nothing. */
  lemma NetBounded(settles: bool, q: Proc)
    requires ProcInv(settles, q)
    ensures Net(q) <= if q.payment.amount > 0 then q.payment.amount else 0
  {
  }
}
