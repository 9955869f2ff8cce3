/** Money over every history of runs and sweeps on one account book. */
module SweptMoney {
  import opened Domain
  import opened Sums
  import opened SagaCore
  import opened Steps
  import opened Interleaving
  import opened Conservation
  import opened Sweep
  import opened SweepRounds
  import opened Deadlines
  import Bank
  import Repository

  /** What one logged call of a sweep moved on account `a`; the payment is the one in the table. */
  function EntryAt(t: Repository.Tables, e: Entry, a: string): int {
    if e.payment in t.payments then MovedAt(e.op, e.done, t.payments[e.payment].payment, a) else 0
  }

  /** What the calls of sweeps add up to on account `a`. */
  function SweptAt(t: Repository.Tables, log: seq<Entry>, a: string): int {
    if log == [] then 0 else SweptAt(t, log[..|log| - 1], a) + EntryAt(t, log[|log| - 1], a)
  }

  lemma {:induction false} SweptAppend(t: Repository.Tables, log: seq<Entry>, e: Entry, a: string)
    ensures SweptAt(t, log + [e], a) == SweptAt(t, log, a) + EntryAt(t, e, a)
  {
    assert (log + [e])[..|log|] == log;
  }

  lemma {:induction false} SweptConcat(t: Repository.Tables, log: seq<Entry>, more: seq<Entry>, a: string)
    ensures SweptAt(t, log + more, a) == SweptAt(t, log, a) + SweptAt(t, more, a)
    decreases |more|
  {
    if more == [] {
      assert log + more == log;
    } else {
      var n := |more| - 1;
      assert log + more == (log + more[..n]) + [more[n]];
      SweptConcat(t, log, more[..n], a);
      SweptAppend(t, log + more[..n], more[n], a);
    }
  }

  // ------------------------------------------------------------ one sweep

  /** A successful bank call of a sweep named an account that exists. */
  predicate Backs(b: Bank.Book, t: Repository.Tables, e: Entry) {
    e.done && e.op.BankCall? && e.payment in t.payments ==>
      AccountOf(e.op.operation, t.payments[e.payment].payment) in b.accounts
  }

  predicate AllBacked(b: Bank.Book, t: Repository.Tables, log: seq<Entry>) {
    forall e :: e in log ==> Backs(b, t, e)
  }

  /** The book moved exactly as the log says, account by account, and did not become insolvent. */
  ghost predicate Tracks(t: Repository.Tables, w: World, w': World) {
    && w'.shared.book.accounts.Keys == w.shared.book.accounts.Keys
    && (forall a :: a in w.shared.book.accounts ==>
          w'.shared.book.accounts[a] - SweptAt(t, w'.log, a) == w.shared.book.accounts[a] - SweptAt(t, w.log, a))
    && (Bank.Solvent(w.shared.book) ==> Bank.Solvent(w'.shared.book))
    && (AllBacked(w.shared.book, t, w.log) ==> AllBacked(w'.shared.book, t, w'.log))
  }

  lemma TracksTrans(t: Repository.Tables, w: World, w1: World, w2: World)
    requires Tracks(t, w, w1) && Tracks(t, w1, w2)
    ensures Tracks(t, w, w2)
  {
  }

  /** A payment as the table knows it, with a positive amount. */
  predicate Genuine(t: Repository.Tables, p: Payment) {
    p.id in t.payments && t.payments[p.id].payment == p && p.amount > 0
  }

  lemma CallTracks(t: Repository.Tables, op: Op, p: Payment, w: World, o: Oracle)
    requires Genuine(t, p)
    ensures Tracks(t, w, Invoke(op, p, w, o).0)
  {
    var w' := Invoke(op, p, w, o).0;
    var done := Effect(op, p, w.shared, o(|w.log|)).1;
    EffectOnBook(op, p, w.shared, o(|w.log|));
    forall a
      ensures SweptAt(t, w'.log, a) == SweptAt(t, w.log, a) + MovedAt(op, done, p, a)
    {
      SweptAppend(t, w.log, w'.log[|w.log|], a);
    }
  }

  lemma CompensateTracks(t: Repository.Tables, kind: StepKind, p: Payment, w: World, o: Oracle)
    requires Genuine(t, p)
    ensures Tracks(t, w, StepOf(kind, o).comp(p, w).0)
  {
    var calls := CompCalls(kind);
    if |calls| == 1 {
      RunOne(calls, p, w, o);
      CallTracks(t, calls[0].op, p, w, o);
    } else if |calls| == 2 {
      RunTwo(calls, p, w, o);
      var w1 := Invoke(calls[0].op, p, w, o).0;
      CallTracks(t, calls[0].op, p, w, o);
      CallTracks(t, calls[1].op, p, w1, o);
      TracksTrans(t, w, w1, Invoke(calls[1].op, p, w1, o).0);
    } else {
      assert RunCalls(calls, 0, p, w, o) == (w, true);
    }
  }

  lemma {:induction false} CompensationTracks(settles: bool, o: Oracle, t: Repository.Tables, p: Payment, w: World,
                                              n: nat)
    requires Genuine(t, p) && n <= |Pipeline(settles)|
    ensures Tracks(t, w, StrictRollback(Wired(settles, o), n, p, w).world)
  {
    var steps := Wired(settles, o);
    ghost var tracks := (a: World, b: World) => Tracks(t, a, b);
    forall a: World, b: World, c: World | tracks(a, b) && tracks(b, c)
      ensures tracks(a, c)
    {
      TracksTrans(t, a, b, c);
    }
    forall i, a: World | 0 <= i < |steps|
      ensures tracks(a, steps[i].comp(p, a).0)
    {
      CompensateTracks(t, Pipeline(settles)[i], p, a, o);
    }
    StrictRollbackRelates(steps, n, p, w, tracks);
    assert tracks(w, StrictRollback(steps, n, p, w).world);
  }

  lemma {:induction false} SweepTracks(settles: bool, o: Oracle, counter: int, order: seq<PaymentId>, i: nat,
                                       unloaded: set<PaymentId>, t: Repository.Tables, w: World)
    requires w.shared.tables.Valid() && SamePayments(t, w.shared.tables) && i <= |order|
    requires forall id :: id in order && id in t.payments ==> Genuine(t, t.payments[id].payment)
    ensures Tracks(t, w, SweepFrom(Wired(settles, o), counter, order, i, unloaded, w))
    decreases |order| - i
  {
    if i < |order| {
      var id := order[i];
      var w1 := RecoverLoaded(Wired(settles, o), counter, id, unloaded, w);
      if id !in unloaded && id in w.shared.tables.payments {
        var row := w.shared.tables.payments[id];
        CompensationTracks(settles, o, t, row.payment, w,
                           CompensationDepth(counter, row.status, |Pipeline(settles)|));
      }
      RecoverLoadedOnlyTouches(settles, o, counter, id, unloaded, w);
      SweepTracks(settles, o, counter, order, i + 1, unloaded, t, w1);
      TracksTrans(t, w, w1, SweepFrom(Wired(settles, o), counter, order, i + 1, unloaded, w1));
    }
  }

  // ------------------------------------------------------------ whole histories

  /** The calls that all sweeps of a history made, in order. */
  function SweepLog(settles: bool, s0: State, events: seq<Event>): seq<Entry>
    requires WellFormed(settles, s0)
  {
    if events == [] then []
    else
      var n := |events| - 1;
      var before := SweepLog(settles, s0, events[..n]);
      if events[n].Call? then before
      else before + AfterRound(settles, RoundAt(Play(settles, s0, events[..n]).shared, events[n])).log
  }

  /** The starting book, moved by what the sweeps did. */
  function Shifted(b: Bank.Book, t: Repository.Tables, log: seq<Entry>): Bank.Book {
    Bank.Book(map a | a in b.accounts :: b.accounts[a] + SweptAt(t, log, a), b.reservations)
  }

  /** A start: no run begun, each run's payment in the table as it is, and positive amounts where RESERVED. */
  predicate Begins(s: State) {
    && Fresh(s) && Enrolled(s)
    && (forall i :: 0 <= i < |s.procs| ==>
          s.shared.tables.payments[s.procs[i].payment.id].payment == s.procs[i].payment)
    && PositiveHeld(s.shared.tables)
  }

  /** Whatever is RESERVED has a positive amount. */
  predicate PositiveHeld(t: Repository.Tables) {
    forall id :: id in t.payments && t.payments[id].status == Reserved ==> t.payments[id].payment.amount > 0
  }

  /** The tables after any part of a history. */
  predicate TablesInv(s0: State, s: State) {
    Enrolled(s) && SamePayments(s0.shared.tables, s.shared.tables) && PositiveHeld(s.shared.tables)
  }

  /** The start, with a book that the sweeps have moved. */
  function ShiftedStart(s0: State, log: seq<Entry>): State {
    State(Shared(Shifted(s0.shared.book, s0.shared.tables, log), s0.shared.tables), s0.procs)
  }

  /** The money invariant of the sagas, over a starting book that the sweeps have moved. */
  ghost predicate SweptInv(settles: bool, s0: State, s: State, log: seq<Entry>) {
    && TablesInv(s0, s)
    && Inv(settles, ShiftedStart(s0, log), s)
    && AllBacked(s0.shared.book, s0.shared.tables, log)
  }

  lemma EffectKeepsPositive(op: Op, p: Payment, s: Shared, t: Turn)
    requires s.tables.Valid() && PositiveHeld(s.tables) && p.id in s.tables.payments
    requires s.tables.payments[p.id].payment == p && (p.amount > 0 || op.CheckFields?)
    ensures PositiveHeld(Effect(op, p, s, t).0.tables)
  {
    EffectOnRows(op, p, s, t);
  }

  /** A saga that goes beyond validation has a positive amount. */
  lemma CallIsPositive(settles: bool, q: Proc)
    requires ProcInv(settles, q) && !q.pc.Done?
    ensures q.payment.amount > 0 || RequestAt(Pipeline(settles), q.pc).op.CheckFields?
  {
    if q.pc == Exec(0, 0) {
      ForwardMove(settles, 0, 0, true);
    }
  }

  lemma CallKeepsTables(settles: bool, s0: State, s: State, log: seq<Entry>, e: Event)
    requires Begins(s0) && WellFormed(settles, s) && SweptInv(settles, s0, s, log) && e.Call?
    ensures TablesInv(s0, Apply(settles, s, e))
  {
    ApplyKeepsEnrolled(settles, s0, s, e);
    CallKeepsPositive(settles, s0, s, log, e);
  }

  lemma ApplyKeepsEnrolled(settles: bool, s0: State, s: State, e: Event)
    requires WellFormed(settles, s) && Enrolled(s) && SamePayments(s0.shared.tables, s.shared.tables)
    ensures var s' := Apply(settles, s, e);
            Enrolled(s') && SamePayments(s0.shared.tables, s'.shared.tables)
  {
    ApplyOnTables(settles, s, e);
    SamePaymentsTrans(s0.shared.tables, s.shared.tables, Apply(settles, s, e).shared.tables);
  }

  /** A saga's payment is the one in the table. */
  lemma ProcIsGenuine(settles: bool, s0: State, s: State, log: seq<Entry>, i: nat)
    requires Begins(s0) && SweptInv(settles, s0, s, log) && i < |s.procs|
    ensures ProcInv(settles, s.procs[i])
    ensures s.shared.tables.payments[s.procs[i].payment.id].payment == s.procs[i].payment
  {
    assert s.procs[i].payment == s0.procs[i].payment;
  }

  lemma CallKeepsPositive(settles: bool, s0: State, s: State, log: seq<Entry>, e: Event)
    requires Begins(s0) && WellFormed(settles, s) && SweptInv(settles, s0, s, log) && e.Call?
    ensures PositiveHeld(Apply(settles, s, e).shared.tables)
  {
    if e.action.who < |s.procs| {
      ProcIsGenuine(settles, s0, s, log, e.action.who);
    }
    GenuineKeepsPositive(settles, s, e.action);
  }

  lemma GenuineKeepsPositive(settles: bool, s: State, a: Action)
    requires WellFormed(settles, s) && Enrolled(s) && PositiveHeld(s.shared.tables)
    requires a.who < |s.procs| ==>
               && ProcInv(settles, s.procs[a.who])
               && s.shared.tables.payments[s.procs[a.who].payment.id].payment == s.procs[a.who].payment
    ensures PositiveHeld(Advance(settles, s, a).shared.tables)
  {
    if a.who < |s.procs| && !s.procs[a.who].pc.Done? {
      var q := s.procs[a.who];
      CallIsPositive(settles, q);
      EffectKeepsPositive(RequestAt(Pipeline(settles), q.pc).op, q.payment, s.shared, a.turn);
    }
  }

  lemma SweepKeepsPositive(settles: bool, s: State, e: Event)
    requires WellFormed(settles, s) && e.Tick? && Enrolled(s) && PositiveHeld(s.shared.tables)
    requires Enumerates(s.shared.tables, e.now, e.locked, e.order)
    ensures PositiveHeld(Apply(settles, s, e).shared.tables)
  {
    assert e.order[0..] == e.order;
    SweepOnlyTouchesListed(settles, e.oracle, e.counter, e.order, 0, e.unloaded, World(s.shared, []));
  }

  /** Two pairs of maps that differ alike, key by key, differ alike in their sums. */
  lemma {:induction false} SumMapShift(m: map<string, int>, m': map<string, int>,
                                       c: map<string, int>, c': map<string, int>)
    requires m.Keys == m'.Keys == c.Keys == c'.Keys
    requires forall k :: k in m ==> m'[k] - m[k] == c'[k] - c[k]
    ensures SumMap(m') - SumMap(m) == SumMap(c') - SumMap(c)
    decreases |m|
  {
    if m == map[] {
      assert m' == map[] && c == map[] && c' == map[];
    } else {
      var k :| k in m;
      SumMapPick(m, k);
      SumMapPick(m', k);
      SumMapPick(c, k);
      SumMapPick(c', k);
      SumMapShift(m - {k}, m' - {k}, c - {k}, c' - {k});
    }
  }

  /** If book and starting book move alike, everything is still accounted for. */
  lemma ShiftKeepsAccounted(c: Bank.Book, c': Bank.Book, b: Bank.Book, b': Bank.Book, procs: seq<Proc>)
    requires Accounted(c, b, procs)
    requires b'.accounts.Keys == b.accounts.Keys && c'.accounts.Keys == c.accounts.Keys
    requires forall a :: a in b.accounts ==> b'.accounts[a] - b.accounts[a] == c'.accounts[a] - c.accounts[a]
    ensures Accounted(c', b', procs)
  {
    SumMapShift(b.accounts, b'.accounts, c.accounts, c'.accounts);
  }

  lemma {:induction false} SweepMovesBook(settles: bool, t: Repository.Tables, s: State, e: Event)
    requires WellFormed(settles, s) && e.Tick? && Enrolled(s) && PositiveHeld(s.shared.tables)
    requires SamePayments(t, s.shared.tables) && t.Valid()
    requires Enumerates(s.shared.tables, e.now, e.locked, e.order)
    ensures var w' := AfterRound(settles, RoundAt(s.shared, e));
            && w'.shared.book.accounts.Keys == s.shared.book.accounts.Keys
            && (forall a :: a in s.shared.book.accounts ==>
                  w'.shared.book.accounts[a] == s.shared.book.accounts[a] + SweptAt(t, w'.log, a))
            && (Bank.Solvent(s.shared.book) ==> Bank.Solvent(w'.shared.book))
            && AllBacked(s.shared.book, t, w'.log)
  {
    forall id | id in e.order && id in t.payments
      ensures Genuine(t, t.payments[id].payment)
    {
    }
    SweepTracks(settles, e.oracle, e.counter, e.order, 0, e.unloaded, t, World(s.shared, []));
  }

  lemma SweepKeepsTables(settles: bool, s0: State, s: State, e: Event)
    requires WellFormed(settles, s) && TablesInv(s0, s) && e.Tick?
    requires Enumerates(s.shared.tables, e.now, e.locked, e.order)
    ensures TablesInv(s0, Apply(settles, s, e))
  {
    SweepKeepsPositive(settles, s, e);
    ApplyKeepsEnrolled(settles, s0, s, e);
  }

  /** Replacing the book, and the starting book with it, keeps the invariant if everything stays accounted for. */
  lemma BookKeepsInv(settles: bool, base: State, base': State, s: State, shared: Shared)
    requires Inv(settles, base, s) && base'.procs == base.procs
    requires shared.book.accounts.Keys == s.shared.book.accounts.Keys && Bank.Solvent(shared.book)
    requires Accounted(base'.shared.book, shared.book, s.procs)
    ensures Inv(settles, base', State(shared, s.procs))
  {
    forall i | 0 <= i < |s.procs|
      ensures Backed(shared.book, s.procs[i])
    {
      assert Backed(s.shared.book, s.procs[i]);
    }
  }

  lemma {:induction false} ShiftedAccounted(b0: Bank.Book, t: Repository.Tables, log: seq<Entry>, more: seq<Entry>,
                                            b: Bank.Book, b': Bank.Book, procs: seq<Proc>)
    requires Accounted(Shifted(b0, t, log), b, procs) && b'.accounts.Keys == b.accounts.Keys
    requires forall a :: a in b.accounts ==> b'.accounts[a] == b.accounts[a] + SweptAt(t, more, a)
    ensures Accounted(Shifted(b0, t, log + more), b', procs)
  {
    var c, c' := Shifted(b0, t, log), Shifted(b0, t, log + more);
    forall a | a in c.accounts
      ensures c'.accounts[a] == c.accounts[a] + SweptAt(t, more, a)
    {
      SweptConcat(t, log, more, a);
    }
    ShiftKeepsAccounted(c, c', b, b', procs);
  }

  lemma SweepKeepsSwept(settles: bool, s0: State, s: State, log: seq<Entry>, e: Event)
    requires Begins(s0) && WellFormed(settles, s) && SweptInv(settles, s0, s, log) && e.Tick?
    requires Enumerates(s.shared.tables, e.now, e.locked, e.order)
    ensures SweptInv(settles, s0, Apply(settles, s, e), log + AfterRound(settles, RoundAt(s.shared, e)).log)
  {
    var t, w' := s0.shared.tables, AfterRound(settles, RoundAt(s.shared, e));
    SweepKeepsTables(settles, s0, s, e);
    SweepMovesBook(settles, t, s, e);
    ShiftedAccounted(s0.shared.book, t, log, w'.log, s.shared.book, w'.shared.book, s.procs);
    BookKeepsInv(settles, ShiftedStart(s0, log), ShiftedStart(s0, log + w'.log), s, w'.shared);
    assert AllBacked(s0.shared.book, t, w'.log);
  }

  lemma CallKeepsSwept(settles: bool, s0: State, s: State, log: seq<Entry>, e: Event)
    requires Begins(s0) && WellFormed(settles, s) && SweptInv(settles, s0, s, log) && e.Call?
    ensures SweptInv(settles, s0, Apply(settles, s, e), log)
  {
    AdvanceKeepsInv(settles, ShiftedStart(s0, log), s, e.action);
    CallKeepsTables(settles, s0, s, log, e);
  }

  lemma BeginsSwept(settles: bool, s0: State)
    requires Begins(s0)
    ensures WellFormed(settles, s0) && SweptInv(settles, s0, s0, [])
  {
    FreshWellFormed(settles, s0);
    assert Shifted(s0.shared.book, s0.shared.tables, []) == s0.shared.book;
  }

  lemma ListsPrefix(settles: bool, s0: State, events: seq<Event>)
    requires WellFormed(settles, s0) && ListsExpired(settles, s0, events) && events != []
    ensures ListsExpired(settles, s0, events[..|events| - 1])
  {
    var n := |events| - 1;
    forall k | 0 <= k < n
      ensures events[..n][..k] == events[..k]
    {
    }
  }

  lemma {:induction false} PlayKeepsSwept(settles: bool, s0: State, events: seq<Event>)
    requires Begins(s0) && WellFormed(settles, s0) && ListsExpired(settles, s0, events)
    ensures SweptInv(settles, s0, Play(settles, s0, events), SweepLog(settles, s0, events))
    decreases |events|
  {
    if events == [] {
      BeginsSwept(settles, s0);
    } else {
      var n := |events| - 1;
      ListsPrefix(settles, s0, events);
      PlayKeepsSwept(settles, s0, events[..n]);
      var s, log := Play(settles, s0, events[..n]), SweepLog(settles, s0, events[..n]);
      if events[n].Call? {
        CallKeepsSwept(settles, s0, s, log, events[n]);
      } else {
        SweepKeepsSwept(settles, s0, s, log, events[n]);
      }
    }
  }

  // ------------------------------------------------------------ the theorems

  /**
   * At every moment of every history of runs and sweeps, whatever fails and whatever the counter says:
   * no balance is negative, and every balance is the starting one plus what the calls of the runs moved
   * plus what the calls of the sweeps moved.
   */
  lemma {:induction false} MoneyIsAccountedForWithSweeps(settles: bool, s0: State, events: seq<Event>, a: string)
    requires Begins(s0) && WellFormed(settles, s0) && ListsExpired(settles, s0, events)
    requires a in s0.shared.book.accounts
    ensures var s, log := Play(settles, s0, events), SweepLog(settles, s0, events);
            && Bank.Solvent(s.shared.book)
            && a in s.shared.book.accounts
            && s.shared.book.accounts[a]
               == s0.shared.book.accounts[a] + SumSeq(FlowsAt(s.procs, a)) + SweptAt(s0.shared.tables, log, a)
  {
    PlayKeepsSwept(settles, s0, events);
  }

  /** What the calls of sweeps add up to over all accounts. */
  function SweptTotal(t: Repository.Tables, log: seq<Entry>): int {
    if log == [] then 0 else SweptTotal(t, log[..|log| - 1]) + EntryTotal(t, log[|log| - 1])
  }

  function EntryTotal(t: Repository.Tables, e: Entry): int {
    if e.payment in t.payments then Moved(e.op, e.done, t.payments[e.payment].payment) else 0
  }

  lemma {:induction false} ShiftedByOne(b: Bank.Book, t: Repository.Tables, log: seq<Entry>, e: Entry)
    requires Backs(b, t, e)
    ensures Bank.Total(Shifted(b, t, log + [e])) == Bank.Total(Shifted(b, t, log)) + EntryTotal(t, e)
  {
    var c, c' := Shifted(b, t, log).accounts, Shifted(b, t, log + [e]).accounts;
    forall a | a in c
      ensures c'[a] == c[a] + EntryAt(t, e, a)
    {
      SweptAppend(t, log, e, a);
    }
    EntryMoves(t, e, c, c');
  }

  /** A map that gains what an entry moved on each account gains what it moved in total. */
  lemma {:induction false} EntryMoves(t: Repository.Tables, e: Entry, c: map<string, int>, c': map<string, int>)
    requires Backs(Bank.Book(c, map[]), t, e) && c'.Keys == c.Keys
    requires forall a :: a in c ==> c'[a] == c[a] + EntryAt(t, e, a)
    ensures SumMap(c') == SumMap(c) + EntryTotal(t, e)
  {
    if e.done && e.op.BankCall? && e.payment in t.payments {
      var a := AccountOf(e.op.operation, t.payments[e.payment].payment);
      SumMapUpdate(c, a, c[a] + EntryTotal(t, e));
      assert c' == c[a := c[a] + EntryTotal(t, e)];
    } else {
      assert c' == c;
    }
  }

  lemma {:induction false} ShiftedTotal(b: Bank.Book, t: Repository.Tables, log: seq<Entry>)
    requires AllBacked(b, t, log)
    ensures Bank.Total(Shifted(b, t, log)) == Bank.Total(b) + SweptTotal(t, log)
    decreases |log|
  {
    if log == [] {
      assert Shifted(b, t, log).accounts == b.accounts;
    } else {
      var n := |log| - 1;
      assert log == log[..n] + [log[n]];
      ShiftedTotal(b, t, log[..n]);
      ShiftedByOne(b, t, log[..n], log[n]);
    }
  }

  /**
   * Once every run has ended, the total differs from the start by exactly the leaks of the runs plus
   * what the sweeps gave back minus what they took: a reservation that a sweep releases makes up for
   * the leak of its run, and one released twice shows as money gained.
   */
  lemma {:induction false} FinishedTotalWithSweeps(settles: bool, s0: State, events: seq<Event>)
    requires Begins(s0) && WellFormed(settles, s0) && ListsExpired(settles, s0, events)
    requires Finished(Play(settles, s0, events))
    ensures var s, log := Play(settles, s0, events), SweepLog(settles, s0, events);
            Bank.Total(s.shared.book)
            == Bank.Total(s0.shared.book) + SumSeq(Leaks(s.procs)) + SweptTotal(s0.shared.tables, log)
  {
    var s, log := Play(settles, s0, events), SweepLog(settles, s0, events);
    PlayKeepsSwept(settles, s0, events);
    ShiftedTotal(s0.shared.book, s0.shared.tables, log);
    FinishedNets(settles, s.procs);
  }

  /** What the calls of sweeps paid out, without what they took. */
  function PaidOut(t: Repository.Tables, log: seq<Entry>): nat {
    if log == [] then 0
    else
      var moved := EntryTotal(t, log[|log| - 1]);
      PaidOut(t, log[..|log| - 1]) + if moved > 0 then moved else 0
  }

  lemma {:induction false} SweptAtMostPaidOut(t: Repository.Tables, log: seq<Entry>)
    ensures SweptTotal(t, log) <= PaidOut(t, log)
  {
    if log != [] {
      SweptAtMostPaidOut(t, log[..|log| - 1]);
    }
  }

  /** The total at any moment: the start, what the runs moved and what the sweeps moved. */
  lemma {:induction false} TotalWithSweeps(settles: bool, s0: State, events: seq<Event>)
    requires Begins(s0) && WellFormed(settles, s0) && ListsExpired(settles, s0, events)
    ensures var s, log := Play(settles, s0, events), SweepLog(settles, s0, events);
            && Bank.Solvent(s.shared.book)
            && Bank.Total(s.shared.book)
               == Bank.Total(s0.shared.book) + SumSeq(Nets(s.procs)) + SweptTotal(s0.shared.tables, log)
            && SumSeq(Nets(s.procs)) <= SumSeq(Amounts(s0.procs))
  {
    var s, log := Play(settles, s0, events), SweepLog(settles, s0, events);
    PlayKeepsSwept(settles, s0, events);
    ShiftedTotal(s0.shared.book, s0.shared.tables, log);
    NetsBounded(settles, ShiftedStart(s0, log), s);
  }

  /**
   * With sweeps, no balance ever exceeds the starting total plus the amounts of all valid payments plus
   * what the sweeps paid out, however often they released the same hold, so 64-bit arithmetic agrees with
   * this model whenever that sum fits.
   */
  lemma {:induction false} BalancesBoundedWithSweeps(settles: bool, s0: State, events: seq<Event>, a: string)
    requires Begins(s0) && WellFormed(settles, s0) && ListsExpired(settles, s0, events)
    requires a in Play(settles, s0, events).shared.book.accounts
    ensures var log := SweepLog(settles, s0, events);
            0 <= Play(settles, s0, events).shared.book.accounts[a]
              <= Bank.Total(s0.shared.book) + SumSeq(Amounts(s0.procs)) + PaidOut(s0.shared.tables, log)
  {
    TotalWithSweeps(settles, s0, events);
    SumMapBounds(Play(settles, s0, events).shared.book.accounts, a);
    SweptAtMostPaidOut(s0.shared.tables, SweepLog(settles, s0, events));
  }
}
