/** The persisted statuses and the events of every payment when sweeps come between the calls of the runs. */
module SweptTrails {
  import opened Domain
  import opened SagaCore
  import opened Steps
  import opened Interleaving
  import opened Trails
  import opened Provenance
  import opened Sweep
  import opened Deadlines
  import Repository

  // ------------------------------------------------------------ what a sweep writes

  /** The tables after ABORTED has been written for these payments, one committed transaction each. */
  function AbortAll(t: Repository.Tables, writes: seq<PaymentId>): Repository.Tables {
    if writes == [] then t
    else
      var n := |writes| - 1;
      Repository.Transact(AbortAll(t, writes[..n]), Repository.UpdateStatus(writes[n], Aborted), true)
  }

  /** All that happened to the tables is that ABORTED was written for some of these payments. */
  ghost predicate AbortsOnly(ids: seq<PaymentId>, t: Repository.Tables, t': Repository.Tables) {
    exists writes: seq<PaymentId> :: (forall id :: id in writes ==> id in ids) && t' == AbortAll(t, writes)
  }

  lemma {:induction false} AbortAllConcat(t: Repository.Tables, a: seq<PaymentId>, b: seq<PaymentId>)
    ensures AbortAll(t, a + b) == AbortAll(AbortAll(t, a), b)
    decreases |b|
  {
    if b == [] {
      assert a + b == a;
    } else {
      var n := |b| - 1;
      assert (a + b)[..|a + b| - 1] == a + b[..n];
      AbortAllConcat(t, a, b[..n]);
    }
  }

  lemma AbortsNothing(ids: seq<PaymentId>, t: Repository.Tables)
    ensures AbortsOnly(ids, t, t)
  {
    assert t == AbortAll(t, []);
  }

  lemma {:induction false} AbortsThen(ids: seq<PaymentId>, a: Repository.Tables, b: Repository.Tables,
                                      c: Repository.Tables)
    requires AbortsOnly(ids, a, b) && AbortsOnly(ids, b, c)
    ensures AbortsOnly(ids, a, c)
  {
    var first: seq<PaymentId> :| (forall id :: id in first ==> id in ids) && b == AbortAll(a, first);
    var second: seq<PaymentId> :| (forall id :: id in second ==> id in ids) && c == AbortAll(b, second);
    AbortAllConcat(a, first, second);
    assert c == AbortAll(a, first + second);
  }

  lemma AbortsAmong(ids: seq<PaymentId>, all: seq<PaymentId>, t: Repository.Tables, t': Repository.Tables)
    requires AbortsOnly(ids, t, t') && (forall id :: id in ids ==> id in all)
    ensures AbortsOnly(all, t, t')
  {
    var writes: seq<PaymentId> :| (forall id :: id in writes ==> id in ids) && t' == AbortAll(t, writes);
    assert forall id :: id in writes ==> id in all;
  }

  lemma {:induction false} CallAborts(op: Op, p: Payment, w: World, o: Oracle)
    requires op.BankCall? || op == WriteStatus(Aborted)
    ensures AbortsOnly([p.id], w.shared.tables, Invoke(op, p, w, o).0.shared.tables)
  {
    var t, turn := w.shared.tables, o(|w.log|);
    AbortsNothing([p.id], t);
    if op == WriteStatus(Aborted) && turn.reachable {
      assert [p.id][..0] == [];
      assert AbortAll(t, [p.id]) == Repository.Transact(t, Repository.UpdateStatus(p.id, Aborted), true);
    }
  }

  lemma {:induction false} CompensateAborts(kind: StepKind, p: Payment, w: World, o: Oracle)
    ensures AbortsOnly([p.id], w.shared.tables, RunCalls(CompCalls(kind), 0, p, w, o).0.shared.tables)
  {
    var calls, t := CompCalls(kind), w.shared.tables;
    forall c: nat | c < |calls| {
      CompCallOp(kind, c);
    }
    if |calls| == 1 {
      RunOne(calls, p, w, o);
      CallAborts(calls[0].op, p, w, o);
    } else if |calls| == 2 {
      RunTwo(calls, p, w, o);
      var w1 := Invoke(calls[0].op, p, w, o).0;
      CallAborts(calls[0].op, p, w, o);
      CallAborts(calls[1].op, p, w1, o);
      AbortsThen([p.id], t, w1.shared.tables, Invoke(calls[1].op, p, w1, o).0.shared.tables);
    } else {
      AbortsNothing([p.id], t);
    }
  }

  lemma {:induction false} CompensationAborts(settles: bool, o: Oracle, p: Payment, w: World, n: nat)
    requires n <= |Pipeline(settles)|
    ensures AbortsOnly([p.id], w.shared.tables, StrictRollback(Wired(settles, o), n, p, w).world.shared.tables)
  {
    var steps := Wired(settles, o);
    ghost var aborts := (a: World, b: World) => AbortsOnly([p.id], a.shared.tables, b.shared.tables);
    forall a: World
      ensures aborts(a, a)
    {
      AbortsNothing([p.id], a.shared.tables);
    }
    forall a: World, b: World, c: World | aborts(a, b) && aborts(b, c)
      ensures aborts(a, c)
    {
      AbortsThen([p.id], a.shared.tables, b.shared.tables, c.shared.tables);
    }
    forall i, a: World | 0 <= i < |steps|
      ensures aborts(a, steps[i].comp(p, a).0)
    {
      CompensateAborts(Pipeline(settles)[i], p, a, o);
    }
    StrictRollbackRelates(steps, n, p, w, aborts);
    assert aborts(w, StrictRollback(steps, n, p, w).world);
  }

  lemma RecoverAborts(settles: bool, o: Oracle, counter: int, id: PaymentId, unloaded: set<PaymentId>, w: World)
    requires w.shared.tables.Valid()
    ensures AbortsOnly([id], w.shared.tables,
                       RecoverLoaded(Wired(settles, o), counter, id, unloaded, w).shared.tables)
  {
    if id in unloaded || id !in w.shared.tables.payments {
      AbortsNothing([id], w.shared.tables);
    } else {
      var row := w.shared.tables.payments[id];
      CompensationAborts(settles, o, row.payment, w,
                         CompensationDepth(counter, row.status, |Pipeline(settles)|));
    }
  }

  /** A whole sweep only writes ABORTED, and only for payments on its list. */
  lemma {:induction false} SweepAborts(settles: bool, o: Oracle, counter: int, order: seq<PaymentId>, i: nat,
                                       unloaded: set<PaymentId>, w: World)
    requires w.shared.tables.Valid() && i <= |order|
    ensures AbortsOnly(order, w.shared.tables,
                       SweepFrom(Wired(settles, o), counter, order, i, unloaded, w).shared.tables)
    decreases |order| - i
  {
    if i == |order| {
      AbortsNothing(order, w.shared.tables);
    } else {
      var w1 := RecoverLoaded(Wired(settles, o), counter, order[i], unloaded, w);
      RecoverAborts(settles, o, counter, order[i], unloaded, w);
      AbortsAmong([order[i]], order, w.shared.tables, w1.shared.tables);
      RecoverLoadedOnlyTouches(settles, o, counter, order[i], unloaded, w);
      SweepAborts(settles, o, counter, order, i + 1, unloaded, w1);
      AbortsThen(order, w.shared.tables, w1.shared.tables,
                 SweepFrom(Wired(settles, o), counter, order, i + 1, unloaded, w1).shared.tables);
    }
  }

  lemma {:induction false} AbortsSplit(m: nat, k: nat)
    ensures Aborts(m) + Aborts(k) == Aborts(m + k)
  {
  }

  lemma {:induction false} OneMoreAbort(writes: seq<PaymentId>, id: PaymentId)
    requires writes != []
    ensures var n := |writes| - 1;
            multiset(writes)[id] == multiset(writes[..n])[id] + (if writes[n] == id then 1 else 0)
  {
    assert writes == writes[..|writes| - 1] + [writes[|writes| - 1]];
  }

  lemma {:induction false} AbortAllValid(t: Repository.Tables, writes: seq<PaymentId>)
    requires t.Valid()
    ensures var t' := AbortAll(t, writes);
            t'.Valid() && t'.payments.Keys == t.payments.Keys
    decreases |writes|
  {
    if writes != [] {
      var n := |writes| - 1;
      AbortAllValid(t, writes[..n]);
      Repository.TransactKeepsValid(AbortAll(t, writes[..n]), Repository.UpdateStatus(writes[n], Aborted), true);
    }
  }

  lemma AbortHistory(t: Repository.Tables, write: PaymentId, id: PaymentId)
    requires t.Valid() && write in t.payments
    ensures Repository.HistoryOf(Repository.Transact(t, Repository.UpdateStatus(write, Aborted), true), id)
         == Repository.HistoryOf(t, id) + Aborts(if write == id then 1 else 0)
  {
    Repository.UpdateExtendsHistory(t, Repository.UpdateStatus(write, Aborted), true);
    assert Aborts(1) == [Aborted];
    assert Repository.HistoryOf(t, id) + Aborts(0) == Repository.HistoryOf(t, id);
  }

  lemma AppendAborts(h: seq<Status>, m: nat, k: nat)
    ensures (h + Aborts(m)) + Aborts(k) == h + Aborts(m + k)
  {
    AbortsSplit(m, k);
    assert (h + Aborts(m)) + Aborts(k) == h + (Aborts(m) + Aborts(k));
  }

  /** The histories after those writes: each payment gains one ABORTED per write of its own. */
  lemma {:induction false} AbortAllHistory(t: Repository.Tables, writes: seq<PaymentId>, id: PaymentId)
    requires t.Valid() && forall x :: x in writes ==> x in t.payments
    ensures Repository.HistoryOf(AbortAll(t, writes), id)
         == Repository.HistoryOf(t, id) + Aborts(multiset(writes)[id])
    decreases |writes|
  {
    if writes == [] {
      assert Aborts(0) == [];
    } else {
      var n := |writes| - 1;
      AbortAllHistory(t, writes[..n], id);
      AbortAllValid(t, writes[..n]);
      AbortHistory(AbortAll(t, writes[..n]), writes[n], id);
      OneMoreAbort(writes, id);
      AppendAborts(Repository.HistoryOf(t, id), multiset(writes[..n])[id], if writes[n] == id then 1 else 0);
    }
  }

  // ------------------------------------------------------------ one saga and the sweeps

  /** A saga that a sweep may have overtaken: its reservation is its last status. */
  predicate Stopped(q: Proc) {
    && !ValidationFailed(q)
    && match q.pc
       case Exec(k, _) => k == 6
       case Comp(_, _) => true
       case Done(ok) => !ok
  }

  /** The clock has passed the deadline of a run that began at `start`. */
  predicate Late(start: int, events: seq<Event>) {
    events != [] && start + RUN_LIMIT < events[|events| - 1].At()
  }

  /** The sweeps added k times ABORTED to what the saga has written, and only once it was late. */
  predicate SweptBy(h0: seq<Status>, h: seq<Status>, q: Proc, late: bool, k: nat) {
    h == h0 + (Written(q.log) + Aborts(k)) && (k > 0 ==> late && Stopped(q))
  }

  ghost predicate SweptTrail(h0: seq<Status>, h: seq<Status>, q: Proc, late: bool) {
    exists k: nat :: SweptBy(h0, h, q, late, k)
  }

  lemma SweptTrailIs(h0: seq<Status>, h: seq<Status>, q: Proc, late: bool, k: nat)
    requires SweptBy(h0, h, q, late, k)
    ensures SweptTrail(h0, h, q, late)
  {
  }

  lemma NeverSwept(h0: seq<Status>, h: seq<Status>, q: Proc)
    ensures SweptBy(h0, h, q, false, 0) <==> h == h0 + Written(q.log)
  {
    assert Written(q.log) + Aborts(0) == Written(q.log);
  }

  /** A call of a saga that is past its deadline and may have been swept. */
  lemma {:induction false} LateCallStaysStopped(settles: bool, q: Proc, s: Shared, t: Turn)
    requires ValidPc(Pipeline(settles), q.pc) && Stopped(q) && !q.pc.Done? && !t.reachable
    ensures var op := RequestAt(Pipeline(settles), q.pc).op;
            && !Effect(op, q.payment, s, t).1
            && Stopped(Logging(q, op, false, false, Next(Pipeline(settles), q.pc, false)))
  {
    var kinds := Pipeline(settles);
    PipelineShape(settles);
    CompFromValid(kinds, q.pc.k);
    if q.pc.Exec? {
      assert kinds[q.pc.k] == Commit;
    } else {
      CompCallOp(kinds[q.pc.k], q.pc.c);
    }
    ValidationAppend(q, RequestAt(kinds, q.pc).op, false, false, Next(kinds, q.pc, false));
  }

  /** A late call of the saga itself. */
  lemma {:induction false} LateCallSwept(settles: bool, h0: seq<Status>, h: seq<Status>, q: Proc, s: Shared, t: Turn,
                                         late: bool, k: nat)
    requires ValidPc(Pipeline(settles), q.pc) && !q.pc.Done? && !t.reachable && k > 0 && SweptBy(h0, h, q, late, k)
    ensures var op := RequestAt(Pipeline(settles), q.pc).op;
            var (_, done) := Effect(op, q.payment, s, t);
            SweptBy(h0, h, Interleaving.Called(settles, q, op, done, Seen(op, done, t)), late, k)
  {
    var op := RequestAt(Pipeline(settles), q.pc).op;
    LateCallStaysStopped(settles, q, s, t);
    WrittenAppend(q.log, Entry(q.payment.id, op, false, false));
  }

  lemma ReservedBySixth(settles: bool, k: nat)
    requires k < |Pipeline(settles)|
    ensures StepStatus(Pipeline(settles)[k]) == Some(Reserved) <==> k == 5
    ensures k < 7 ==> StepStatus(Pipeline(settles)[k]).Some?
  {
    PipelineShape(settles);
    if k < 7 {
      assert Pipeline(settles)[k] == Pipeline(settles)[..7][k];
    }
  }

  /** After the first k steps the last status is RESERVED exactly if the sixth step was the last. */
  lemma {:induction false} LastIsReserved(settles: bool, k: nat, h: seq<Status>)
    requires k <= |Pipeline(settles)| && h != [] && h[|h| - 1] != Reserved
    ensures var all := h + Statuses(Pipeline(settles), k);
            all[|all| - 1] == Reserved <==> k == 6
    decreases k
  {
    if k > 0 {
      var before, status := Statuses(Pipeline(settles), k - 1), StepStatus(Pipeline(settles)[k - 1]);
      ReservedBySixth(settles, k - 1);
      ExtendConcat(h, before, status);
      if status.None? {
        LastIsReserved(settles, k - 1, h);
      }
    }
  }

  /** A saga whose payment is persisted as RESERVED has its reservation behind it and nothing after. */
  lemma {:induction false} ReservedIsStopped(settles: bool, h0: seq<Status>, h: seq<Status>, q: Proc)
    requires TrailInv(Pipeline(settles), q) && h == h0 + Written(q.log)
    requires h0 != [] && h0[|h0| - 1] != Reserved && h[|h| - 1] == Reserved
    ensures Stopped(q)
  {
    if q.pc.Exec? {
      LastIsReserved(settles, q.pc.k, h0);
    } else if q.pc == Done(true) {
      LastIsReserved(settles, |Pipeline(settles)|, h0);
    }
  }

  /** A sweep over the saga's payment. */
  lemma {:induction false} SweepExtends(settles: bool, h0: seq<Status>, h: seq<Status>, q: Proc, late: bool,
                                        late': bool, c: nat)
    requires TrailInv(Pipeline(settles), q) && SweptTrail(h0, h, q, late) && (late ==> late')
    requires h0 != [] && h0[|h0| - 1] != Reserved
    requires c > 0 ==> late' && EndsReserved(h)
    ensures SweptTrail(h0, h + Aborts(c), q, late')
  {
    var k: nat :| SweptBy(h0, h, q, late, k);
    if c > 0 && k == 0 {
      NeverSwept(h0, h, q);
      ReservedIsStopped(settles, h0, h, q);
    }
    AppendAborts(h0 + Written(q.log), k, c);
    assert h == (h0 + Written(q.log)) + Aborts(k);
    assert h + Aborts(c) == h0 + (Written(q.log) + Aborts(k + c));
    SweptTrailIs(h0, h + Aborts(c), q, late', k + c);
  }

  /** What saga i and the sweeps have persisted, up to a moment. */
  ghost predicate Traced(settles: bool, h0: seq<Status>, s: State, i: nat, late: bool) {
    && i < |s.procs|
    && TrailInv(Pipeline(settles), s.procs[i])
    && SweptTrail(h0, Repository.HistoryOf(s.shared.tables, s.procs[i].payment.id), s.procs[i], late)
  }

  /** What a sweep adds to one history: only ABORTED, and only if it lists the payment, which is RESERVED. */
  ghost predicate SweepAdds(e: Event, t: Repository.Tables, t': Repository.Tables, id: PaymentId, c: nat)
    requires e.Tick?
  {
    && Repository.HistoryOf(t', id) == Repository.HistoryOf(t, id) + Aborts(c)
    && (c > 0 ==> id in e.order && EndsReserved(Repository.HistoryOf(t, id)))
  }

  predicate EndsReserved(h: seq<Status>) {
    h != [] && h[|h| - 1] == Reserved
  }

  lemma {:induction false} SweepOnHistory(settles: bool, s: State, e: Event, id: PaymentId) returns (c: nat)
    requires WellFormed(settles, s) && s.shared.tables.Valid() && e.Tick?
    requires Enumerates(s.shared.tables, e.now, e.locked, e.order)
    ensures SweepAdds(e, s.shared.tables, Apply(settles, s, e).shared.tables, id, c)
  {
    var t, t' := s.shared.tables, Apply(settles, s, e).shared.tables;
    SweepAborts(settles, e.oracle, e.counter, e.order, 0, e.unloaded, World(s.shared, []));
    var writes: seq<PaymentId> :| (forall x :: x in writes ==> x in e.order) && t' == AbortAll(t, writes);
    AbortAllHistory(t, writes, id);
    c := multiset(writes)[id];
    assert c > 0 ==> id in writes;
  }

  lemma {:induction false} TickKeepsTraced(settles: bool, h0: seq<Status>, s: State, e: Event, i: nat, late: bool,
                                           late': bool)
    requires WellFormed(settles, s) && Enrolled(s) && e.Tick?
    requires Enumerates(s.shared.tables, e.now, e.locked, e.order)
    requires h0 != [] && h0[|h0| - 1] != Reserved
    requires Traced(settles, h0, s, i, late) && (late || s.procs[i].payment.id in e.order ==> late')
    ensures Traced(settles, h0, Apply(settles, s, e), i, late')
  {
    var q := s.procs[i];
    var c := SweepOnHistory(settles, s, e, q.payment.id);
    SweepExtends(settles, h0, Repository.HistoryOf(s.shared.tables, q.payment.id), q, late, late', c);
    assert Apply(settles, s, e).procs == s.procs;
  }

  /** A call of the saga itself. */
  lemma {:induction false} OwnCallSwept(settles: bool, h0: seq<Status>, s: Shared, q: Proc, t: Turn, late: bool,
                                        late': bool)
    requires TrailInv(Pipeline(settles), q) && !q.pc.Done? && s.tables.Valid() && q.payment.id in s.tables.payments
    requires SweptTrail(h0, Repository.HistoryOf(s.tables, q.payment.id), q, late)
    requires late ==> late' && !t.reachable
    ensures var op := RequestAt(Pipeline(settles), q.pc).op;
            var (s', done) := Effect(op, q.payment, s, t);
            SweptTrail(h0, Repository.HistoryOf(s'.tables, q.payment.id),
                       Interleaving.Called(settles, q, op, done, Seen(op, done, t)), late')
  {
    var op, h := RequestAt(Pipeline(settles), q.pc).op, Repository.HistoryOf(s.tables, q.payment.id);
    var (s', done) := Effect(op, q.payment, s, t);
    var q' := Interleaving.Called(settles, q, op, done, Seen(op, done, t));
    var k: nat :| SweptBy(h0, h, q, late, k);
    if k == 0 {
      NeverSwept(h0, h, q);
      CallExtendsTrail(op, q.payment, s, t, h0, q.log);
      NeverSwept(h0, Repository.HistoryOf(s'.tables, q.payment.id), q');
    } else {
      LateCallSwept(settles, h0, h, q, s, t, late, k);
      UnreachableIsIdle(op, q.payment, s, t);
    }
    SweptTrailIs(h0, Repository.HistoryOf(s'.tables, q.payment.id), q', late', k);
  }

  lemma SweptTrailLater(h0: seq<Status>, h: seq<Status>, q: Proc, late: bool, late': bool)
    requires SweptTrail(h0, h, q, late) && (late ==> late')
    ensures SweptTrail(h0, h, q, late')
  {
    var k: nat :| SweptBy(h0, h, q, late, k);
    SweptTrailIs(h0, h, q, late', k);
  }

  lemma {:induction false} CallKeepsTraced(settles: bool, h0: seq<Status>, s: State, a: Action, i: nat, late: bool,
                                           late': bool)
    requires WellFormed(settles, s) && Enrolled(s) && Traced(settles, h0, s, i, late)
    requires late ==> late' && (a.who == i ==> !a.turn.reachable)
    ensures Traced(settles, h0, Advance(settles, s, a), i, late')
  {
    var q := s.procs[i];
    SweptTrailLater(h0, Repository.HistoryOf(s.shared.tables, q.payment.id), q, late, late');
    if a.who < |s.procs| && !s.procs[a.who].pc.Done? {
      var op := RequestAt(Pipeline(settles), s.procs[a.who].pc).op;
      if a.who == i {
        var done := Effect(op, q.payment, s.shared, a.turn).1;
        CallKeepsTrail(settles, q, done, Seen(op, done, a.turn));
        OwnCallSwept(settles, h0, s.shared, q, a.turn, late, late');
      } else {
        EffectOnHistory(op, s.procs[a.who].payment, s.shared, a.turn);
        assert q.payment.id != s.procs[a.who].payment.id;
      }
    }
  }

  // ------------------------------------------------------------ over every history

  /** A history of calls and sweeps that starts with payments none of which is RESERVED. */
  ghost predicate FreshHistory(settles: bool, starts: seq<int>, s0: State, events: seq<Event>) {
    && History(settles, starts, s0, events) && Stored(s0)
    && forall i :: 0 <= i < |s0.procs| ==> s0.shared.tables.payments[s0.procs[i].payment.id].status != Reserved
  }

  lemma FreshPrefix(settles: bool, starts: seq<int>, s0: State, events: seq<Event>)
    requires FreshHistory(settles, starts, s0, events) && events != []
    ensures FreshHistory(settles, starts, s0, events[..|events| - 1])
  {
    HistoryPrefix(settles, starts, s0, events, |events| - 1);
  }

  /** The history a payment starts with. */
  function FirstHistory(s0: State, i: nat): seq<Status>
    requires i < |s0.procs|
  {
    Repository.HistoryOf(s0.shared.tables, s0.procs[i].payment.id)
  }

  lemma BeginsTraced(settles: bool, s0: State, i: nat)
    requires Stored(s0) && i < |s0.procs|
    ensures Traced(settles, FirstHistory(s0, i), s0, i, false)
  {
    var q, h0 := s0.procs[i], FirstHistory(s0, i);
    assert Shape(Pipeline(settles), Written(q.log), 0, 0);
    NeverSwept(h0, h0, q);
    SweptTrailIs(h0, h0, q, false, 0);
  }

  /** The clock does not run backwards. */
  lemma LateStaysLate(start: int, events: seq<Event>)
    requires Clocked(events) && events != [] && Late(start, events[..|events| - 1])
    ensures Late(start, events)
  {
    var n := |events| - 1;
    assert events[n - 1].At() <= events[n].At();
  }

  lemma {:induction false} EventKeepsTraced(settles: bool, starts: seq<int>, s0: State, events: seq<Event>, i: nat)
    requires FreshHistory(settles, starts, s0, events) && events != [] && i < |starts|
    requires var before := events[..|events| - 1];
             Traced(settles, FirstHistory(s0, i), Play(settles, s0, before), i, Late(starts[i], before))
    ensures Traced(settles, FirstHistory(s0, i), Play(settles, s0, events), i, Late(starts[i], events))
  {
    var n := |events| - 1;
    var s, e, h0 := Play(settles, s0, events[..n]), events[n], FirstHistory(s0, i);
    var late, late' := Late(starts[i], events[..n]), Late(starts[i], events);
    PlayKeepsEnrolled(settles, s0, events[..n]);
    if late {
      LateStaysLate(starts[i], events);
    }
    if e.Tick? {
      if s.procs[i].payment.id in e.order {
        ListedIsLate(settles, starts, s0, events, n, i);
      }
      TickKeepsTraced(settles, h0, s, e, i, late, late');
    } else {
      assert MeetsDeadline(starts, e);
      CallKeepsTraced(settles, h0, s, e.action, i, late, late');
    }
  }

  lemma {:induction false} PlayKeepsTraced(settles: bool, starts: seq<int>, s0: State, events: seq<Event>, i: nat)
    requires FreshHistory(settles, starts, s0, events) && i < |starts|
    ensures Traced(settles, FirstHistory(s0, i), Play(settles, s0, events), i, Late(starts[i], events))
    decreases |events|
  {
    if events == [] {
      BeginsTraced(settles, s0, i);
    } else {
      FreshPrefix(settles, starts, s0, events);
      PlayKeepsTraced(settles, starts, s0, events[..|events| - 1], i);
      EventKeepsTraced(settles, starts, s0, events, i);
    }
  }

  lemma SweptTrailIsOrderly(settles: bool, t0: Repository.Tables, t: Repository.Tables, q: Proc, late: bool)
    requires t0.Valid() && t.Valid() && t0.payments.Keys == t.payments.Keys && q.payment.id in t0.payments
    requires TrailInv(Pipeline(settles), q)
    requires SweptTrail(Repository.HistoryOf(t0, q.payment.id), Repository.HistoryOf(t, q.payment.id), q, late)
    ensures Orderly(settles, t0, t, q)
  {
    var id, kinds := q.payment.id, Pipeline(settles);
    var h0, h := Repository.HistoryOf(t0, id), Repository.HistoryOf(t, id);
    var k: nat :| SweptBy(h0, h, q, late, k);
    if k == 0 {
      NeverSwept(h0, h, q);
      TrailIsOrderly(settles, t0, t, q);
    } else {
      var j: nat, m: nat :| Shape(kinds, Written(q.log), j, m) && (m > 0 <==> AnyAbortWritten(q));
      AppendAborts(Statuses(kinds, j), m, k);
      assert h == h0 + (Statuses(kinds, j) + Aborts(m + k));
      assert h[|h| - 1] == Aborts(k)[k - 1];
    }
  }

  /**
   * The persisted statuses with sweeps: over every history of calls and sweeps on one clock, those of each
   * payment follow the pipeline order and then only ABORTED, whether the run or a sweep wrote it; a run that
   * succeeds has written all of them and no sweep has touched it, and neither has one a payment whose
   * validation failed.
   */
  lemma {:induction false} StatusesFollowPipelineWithSweeps(settles: bool, starts: seq<int>, s0: State,
                                                            events: seq<Event>, i: nat)
    requires FreshHistory(settles, starts, s0, events) && i < |starts|
    ensures var s := Play(settles, s0, events);
            |s.procs| == |s0.procs| && Orderly(settles, s0.shared.tables, s.shared.tables, s.procs[i])
  {
    var s := Play(settles, s0, events);
    PlayKeepsEnrolled(settles, s0, events);
    PlayKeepsTraced(settles, starts, s0, events, i);
    SweptTrailIsOrderly(settles, s0.shared.tables, s.shared.tables, s.procs[i], Late(starts[i], events));
  }

  // ------------------------------------------------------------ the origins that events tell

  lemma {:induction false} AbortAllStatus(t: Repository.Tables, writes: seq<PaymentId>, id: PaymentId)
    requires t.Valid() && id in t.payments && forall x :: x in writes ==> x in t.payments
    ensures var t' := AbortAll(t, writes);
            && id in t'.payments
            && t'.payments[id].status == if id in writes then Aborted else t.payments[id].status
  {
    var h, c := Repository.HistoryOf(t, id), multiset(writes)[id];
    AbortAllValid(t, writes);
    AbortAllHistory(t, writes, id);
    assert c > 0 <==> id in writes;
    assert (h + Aborts(c))[|h + Aborts(c)| - 1] == if c > 0 then Aborted else h[|h| - 1];
  }

  /** Write k of a sweep: its event tells its origin if and only if it repeats ABORTED, so not the first time. */
  ghost predicate WriteTells(t: Repository.Tables, writes: seq<PaymentId>, k: nat)
    requires k < |writes|
  {
    var found, e := AbortAll(t, writes[..k]), Repository.Event(writes[k], Some(Aborted), Aborted);
    && AbortAll(t, writes[..k + 1]).outbox == found.outbox + [Repository.OutboxRow(e, false)]
    && OriginToldRightly(found, e)
    && (TellsOrigin(found, e) <==> writes[k] in writes[..k])
  }

  /** A sweep is a list of committed ABORTED writes of listed payments, each telling its origin as above. */
  ghost predicate SweepTells(ids: seq<PaymentId>, t: Repository.Tables, t': Repository.Tables) {
    exists writes: seq<PaymentId> ::
      && (forall id :: id in writes ==> id in ids)
      && t' == AbortAll(t, writes)
      && (forall k :: 0 <= k < |writes| ==> WriteTells(t, writes, k))
  }

  lemma {:induction false} AbortWriteTells(t: Repository.Tables, writes: seq<PaymentId>, k: nat)
    requires t.Valid() && k < |writes|
    requires forall id :: id in writes ==> id in t.payments && t.payments[id].status == Reserved
    ensures WriteTells(t, writes, k)
  {
    assert writes[..k + 1][..k] == writes[..k];
    AbortAllStatus(t, writes[..k], writes[k]);
  }

  lemma {:induction false} SweepTellsOrigins(settles: bool, s: State, e: Event)
    requires WellFormed(settles, s) && s.shared.tables.Valid() && e.Tick?
    requires Enumerates(s.shared.tables, e.now, e.locked, e.order)
    ensures SweepTells(e.order, s.shared.tables, Apply(settles, s, e).shared.tables)
  {
    var t, t' := s.shared.tables, Apply(settles, s, e).shared.tables;
    SweepAborts(settles, e.oracle, e.counter, e.order, 0, e.unloaded, World(s.shared, []));
    var writes: seq<PaymentId> :| (forall x :: x in writes ==> x in e.order) && t' == AbortAll(t, writes);
    forall k | 0 <= k < |writes|
      ensures WriteTells(t, writes, k)
    {
      AbortWriteTells(t, writes, k);
    }
  }

  lemma {:induction false} CallTellsOriginWithSweeps(settles: bool, h0: seq<Status>, s: State, a: Action, late: bool)
    requires WellFormed(settles, s) && Enrolled(s) && a.who < |s.procs| && !s.procs[a.who].pc.Done?
    requires Traced(settles, h0, s, a.who, late) && h0 != [] && h0[|h0| - 1] == Received
    requires late ==> !a.turn.reachable
    ensures OriginsToldRightly(s.shared.tables, Advance(settles, s, a).shared.tables)
  {
    var q := s.procs[a.who];
    var h := Repository.HistoryOf(s.shared.tables, q.payment.id);
    var k: nat :| SweptBy(h0, h, q, late, k);
    if k == 0 {
      NeverSwept(h0, h, q);
      CallTellsOrigin(settles, h0, s.shared, q, a.turn);
    } else {
      UnreachableIsIdle(RequestAt(Pipeline(settles), q.pc).op, q.payment, s.shared, a.turn);
    }
  }

  /** What a history says about its last event, a call of run i. */
  lemma {:induction false} CallInHistory(settles: bool, starts: seq<int>, s0: State, events: seq<Event>, i: nat)
    requires FreshHistory(settles, starts, s0, events) && AllReceived(s0) && events != [] && i < |starts|
    requires events[|events| - 1].Call? && events[|events| - 1].action.who == i
    ensures var before := events[..|events| - 1];
            && Traced(settles, FirstHistory(s0, i), Play(settles, s0, before), i, Late(starts[i], before))
            && (Late(starts[i], before) ==> !events[|events| - 1].action.turn.reachable)
    ensures FirstHistory(s0, i) != [] && FirstHistory(s0, i)[|FirstHistory(s0, i)| - 1] == Received
  {
    var n := |events| - 1;
    FreshPrefix(settles, starts, s0, events);
    PlayKeepsTraced(settles, starts, s0, events[..n], i);
    assert MeetsDeadline(starts, events[n]);
    if Late(starts[i], events[..n]) {
      LateStaysLate(starts[i], events);
    }
  }

  /** What an event of a history tells of origins, between the tables it found and those it left. */
  ghost predicate EventTells(e: Event, t: Repository.Tables, t': Repository.Tables) {
    if e.Call? then OriginsToldRightly(t, t') else SweepTells(e.order, t, t')
  }

  lemma {:induction false} CallTellsInHistory(settles: bool, starts: seq<int>, s0: State, events: seq<Event>)
    requires FreshHistory(settles, starts, s0, events) && AllReceived(s0) && events != []
    requires events[|events| - 1].Call?
    ensures var s, a := Play(settles, s0, events[..|events| - 1]), events[|events| - 1].action;
            OriginsToldRightly(s.shared.tables, Advance(settles, s, a).shared.tables)
  {
    var n := |events| - 1;
    var s, a := Play(settles, s0, events[..n]), events[n].action;
    PlayKeepsEnrolled(settles, s0, events[..n]);
    if a.who < |s.procs| && !s.procs[a.who].pc.Done? {
      CallInHistory(settles, starts, s0, events, a.who);
      CallTellsOriginWithSweeps(settles, FirstHistory(s0, a.who), s, a, Late(starts[a.who], events[..n]));
    }
  }

  lemma {:induction false} TickTellsInHistory(settles: bool, starts: seq<int>, s0: State, events: seq<Event>)
    requires FreshHistory(settles, starts, s0, events) && events != [] && events[|events| - 1].Tick?
    ensures var s, e := Play(settles, s0, events[..|events| - 1]), events[|events| - 1];
            SweepTells(e.order, s.shared.tables, Apply(settles, s, e).shared.tables)
  {
    var n := |events| - 1;
    PlayKeepsEnrolled(settles, s0, events[..n]);
    SweepTellsOrigins(settles, Play(settles, s0, events[..n]), events[n]);
  }

  /**
   * The origins with sweeps: over every history of calls and sweeps of received payments, each event that a
   * call or a sweep writes carries the true previous status if and only if it announces ABORTED for a payment
   * that was ABORTED already; in a sweep that is every event of a payment but its first.
   */
  lemma {:induction false} EventOriginIffWithSweeps(settles: bool, starts: seq<int>, s0: State, events: seq<Event>)
    requires FreshHistory(settles, starts, s0, events) && AllReceived(s0) && events != []
    ensures var n := |events| - 1;
            var t, t' := Play(settles, s0, events[..n]).shared.tables, Play(settles, s0, events).shared.tables;
            EventTells(events[n], t, t')
  {
    if events[|events| - 1].Tick? {
      TickTellsInHistory(settles, starts, s0, events);
    } else {
      CallTellsInHistory(settles, starts, s0, events);
    }
  }
}
