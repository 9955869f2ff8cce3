/** Runs and sweeps on one clock: the 60 second limit of a run against the 5 minute life of a reservation. */
module Deadlines {
  import opened Domain
  import opened Steps
  import opened Interleaving
  import opened Sweep
  import opened SweepRounds
  import Repository

  /** The context timeout of one asynchronous Saga.Run. */
  const RUN_LIMIT: int := 60 * SECOND

  /** One call of a run, or one whole sweep; each happens at a time. */
  datatype Event =
    | Call(action: Action)
    | Tick(now: int, locked: set<PaymentId>, order: seq<PaymentId>, unloaded: set<PaymentId>, counter: int,
           oracle: Oracle)
  {
    function At(): int {
      if Call? then action.turn.at else now
    }
  }

  function RoundAt(s: Shared, e: Event): Round
    requires e.Tick?
  {
    Round(s, e.now, e.locked, e.order, e.unloaded, e.counter, e.oracle)
  }

  function Apply(settles: bool, s: State, e: Event): State
    requires WellFormed(settles, s)
  {
    if e.Call? then Advance(settles, s, e.action)
    else State(AfterRound(settles, RoundAt(s.shared, e)).shared, s.procs)
  }

  /** The state after a whole history of calls and sweeps. */
  function Play(settles: bool, s: State, events: seq<Event>): (r: State)
    requires WellFormed(settles, s)
    ensures WellFormed(settles, r)
  {
    if events == [] then s
    else
      var n := |events| - 1;
      var before := Play(settles, s, events[..n]);
      ApplyWellFormed(settles, before, events[n]);
      Apply(settles, before, events[n])
  }

  lemma ApplyWellFormed(settles: bool, s: State, e: Event)
    requires WellFormed(settles, s)
    ensures WellFormed(settles, Apply(settles, s, e))
  {
    if e.Call? {
      AdvanceWellFormed(settles, s, e.action);
    }
  }

  /** Every sweep lists the expired reservations of the tables it finds. */
  ghost predicate ListsExpired(settles: bool, s0: State, events: seq<Event>)
    requires WellFormed(settles, s0)
  {
    forall k :: 0 <= k < |events| && events[k].Tick? ==>
      Enumerates(Play(settles, s0, events[..k]).shared.tables, events[k].now, events[k].locked, events[k].order)
  }

  /** One clock: events come in the order of their times. */
  predicate Clocked(events: seq<Event>) {
    forall j, k :: 0 <= j < k < |events| ==> events[j].At() <= events[k].At()
  }

  /** A call that gets through does so between the start of its run and the run's deadline. */
  predicate MeetsDeadline(starts: seq<int>, e: Event) {
    e.Call? && e.action.who < |starts| && e.action.turn.reachable ==>
      starts[e.action.who] <= e.At() <= starts[e.action.who] + RUN_LIMIT
  }

  predicate MeetDeadlines(starts: seq<int>, events: seq<Event>) {
    forall k :: 0 <= k < |events| ==> MeetsDeadline(starts, events[k])
  }

  // ------------------------------------------------------------ what stays true in every history

  /** All payments are in the table, under different ids. */
  predicate Enrolled(s: State) {
    && s.shared.tables.Valid()
    && (forall i :: 0 <= i < |s.procs| ==> s.procs[i].payment.id in s.shared.tables.payments)
    && (forall i, j :: 0 <= i < j < |s.procs| ==> s.procs[i].payment.id != s.procs[j].payment.id)
  }

  /** The table keeps its rows and what they say about the payment itself. */
  predicate SamePayments(t: Repository.Tables, t': Repository.Tables) {
    && t'.payments.Keys == t.payments.Keys
    && forall id :: id in t.payments ==> t'.payments[id].payment == t.payments[id].payment
  }

  lemma {:induction false} SweepOnlyTouchesListed(settles: bool, o: Oracle, counter: int, order: seq<PaymentId>,
                                                  i: nat, unloaded: set<PaymentId>, w: World)
    requires w.shared.tables.Valid() && i <= |order|
    ensures var t, t' := w.shared.tables, SweepFrom(Wired(settles, o), counter, order, i, unloaded, w).shared.tables;
            && t'.Valid() && SamePayments(t, t')
            && (forall id :: id in t.payments ==> t'.payments[id].expiresAt == t.payments[id].expiresAt)
            && (forall id :: id in t.payments && id !in order[i..] ==> t'.payments[id] == t.payments[id])
    decreases |order| - i
  {
    if i < |order| {
      RecoverLoadedOnlyTouches(settles, o, counter, order[i], unloaded, w);
      assert order[i..] == [order[i]] + order[i + 1..];
      SweepOnlyTouchesListed(settles, o, counter, order, i + 1, unloaded,
                             RecoverLoaded(Wired(settles, o), counter, order[i], unloaded, w));
    }
  }

  /** One call changes at most the row of its own payment, and only a reservation mark its expiry. */
  lemma EffectOnRows(op: Op, p: Payment, s: Shared, t: Turn)
    requires s.tables.Valid() && p.id in s.tables.payments
    ensures OwnRowOnly(p.id, t, s.tables, Effect(op, p, s, t).0.tables)
  {
    if op.WriteStatus? || op.WriteRoute? || op.MarkReserved? {
      WriteOnRows(op, p, s.tables, t);
    } else {
      assert Effect(op, p, s, t).0.tables == s.tables;
    }
  }

  lemma WriteOnRows(op: Op, p: Payment, t: Repository.Tables, turn: Turn)
    requires op.WriteStatus? || op.WriteRoute? || op.MarkReserved?
    requires t.Valid() && p.id in t.payments
    ensures OwnRowOnly(p.id, turn, t, Repository.Transact(t, ChangeOf(op, p, turn.at), turn.reachable))
  {
    var change := ChangeOf(op, p, turn.at);
    Repository.TransactKeepsValid(t, change, turn.reachable);
    Repository.UpdateExtendsHistory(t, change, turn.reachable);
    ExpiryOf(op, p, t, turn);
  }

  predicate OwnRowOnly(id: PaymentId, turn: Turn, t: Repository.Tables, t': Repository.Tables) {
    && t'.Valid() && SamePayments(t, t') && id in t.payments
    && (forall other :: other in t.payments && other != id ==> t'.payments[other] == t.payments[other])
    && (|| t'.payments[id].expiresAt == t.payments[id].expiresAt
        || (turn.reachable && t'.payments[id].expiresAt == Some(turn.at + RESERVATION_TTL)))
  }

  /** A reservation mark that gets through sets the expiry to its time plus the reservation time, nothing else does. */
  lemma ExpiryOf(op: Op, p: Payment, t: Repository.Tables, turn: Turn)
    requires op.WriteStatus? || op.WriteRoute? || op.MarkReserved?
    requires p.id in t.payments
    ensures var t' := Repository.Transact(t, ChangeOf(op, p, turn.at), turn.reachable);
            && p.id in t'.payments
            && t'.payments[p.id].expiresAt == (if op.MarkReserved? && turn.reachable
                                               then Some(turn.at + RESERVATION_TTL)
                                               else t.payments[p.id].expiresAt)
            && t'.payments[p.id].status == (if !turn.reachable then t.payments[p.id].status
                                            else match op case WriteStatus(to) => to
                                                          case WriteRoute => Routed
                                                          case _ => Reserved)
  {
  }

  /** A call that does not get through leaves everything as it was. */
  lemma UnreachableIsIdle(op: Op, p: Payment, s: Shared, t: Turn)
    requires !t.reachable
    ensures Effect(op, p, s, t).0 == s
  {
  }

  lemma ApplyOnTables(settles: bool, s: State, e: Event)
    requires WellFormed(settles, s) && Enrolled(s)
    ensures var s' := Apply(settles, s, e);
            && |s'.procs| == |s.procs|
            && (forall i :: 0 <= i < |s.procs| ==> s'.procs[i].payment == s.procs[i].payment)
            && s'.shared.tables.Valid() && SamePayments(s.shared.tables, s'.shared.tables)
  {
    if e.Tick? {
      SweepOnlyTouchesListed(settles, e.oracle, e.counter, e.order, 0, e.unloaded, World(s.shared, []));
    } else if e.action.who < |s.procs| && !s.procs[e.action.who].pc.Done? {
      var q := s.procs[e.action.who];
      EffectOnRows(RequestAt(Pipeline(settles), q.pc).op, q.payment, s.shared, e.action.turn);
    }
  }

  lemma SamePaymentsTrans(a: Repository.Tables, b: Repository.Tables, c: Repository.Tables)
    requires SamePayments(a, b) && SamePayments(b, c)
    ensures SamePayments(a, c)
  {
  }

  lemma {:induction false} PlayKeepsEnrolled(settles: bool, s0: State, events: seq<Event>)
    requires WellFormed(settles, s0) && Enrolled(s0)
    ensures var s := Play(settles, s0, events);
            && Enrolled(s) && |s.procs| == |s0.procs|
            && (forall i :: 0 <= i < |s.procs| ==> s.procs[i].payment == s0.procs[i].payment)
            && SamePayments(s0.shared.tables, s.shared.tables)
    decreases |events|
  {
    if events != [] {
      var n := |events| - 1;
      var before := Play(settles, s0, events[..n]);
      PlayKeepsEnrolled(settles, s0, events[..n]);
      ApplyOnTables(settles, before, events[n]);
      SamePaymentsTrans(s0.shared.tables, before.shared.tables, Apply(settles, before, events[n]).shared.tables);
    }
  }

  // ------------------------------------------------------------ every reservation expires

  /** Whatever is RESERVED has an expiry, so that a sweep will find it. */
  predicate HeldExpire(t: Repository.Tables) {
    forall id :: id in t.payments && t.payments[id].status == Reserved ==> t.payments[id].expiresAt.Some?
  }

  /** Only the reservation mark makes a payment RESERVED. */
  lemma ReservedByMark(settles: bool, pc: Pc)
    requires ValidPc(Pipeline(settles), pc) && !pc.Done?
    ensures RequestAt(Pipeline(settles), pc).op != WriteStatus(Reserved)
  {
  }

  lemma EffectKeepsHeldExpire(op: Op, p: Payment, s: Shared, t: Turn)
    requires s.tables.Valid() && p.id in s.tables.payments && op != WriteStatus(Reserved) && HeldExpire(s.tables)
    ensures HeldExpire(Effect(op, p, s, t).0.tables)
  {
    EffectOnRows(op, p, s, t);
    if op.WriteStatus? || op.WriteRoute? || op.MarkReserved? {
      ExpiryOf(op, p, s.tables, t);
    }
  }

  lemma ApplyKeepsHeldExpire(settles: bool, s: State, e: Event)
    requires WellFormed(settles, s) && Enrolled(s) && HeldExpire(s.shared.tables)
    requires e.Tick? ==> Enumerates(s.shared.tables, e.now, e.locked, e.order)
    ensures HeldExpire(Apply(settles, s, e).shared.tables)
  {
    if e.Tick? {
      assert e.order[0..] == e.order;
      SweepOnlyTouchesListed(settles, e.oracle, e.counter, e.order, 0, e.unloaded, World(s.shared, []));
    } else if e.action.who < |s.procs| && !s.procs[e.action.who].pc.Done? {
      var q := s.procs[e.action.who];
      ReservedByMark(settles, q.pc);
      EffectKeepsHeldExpire(RequestAt(Pipeline(settles), q.pc).op, q.payment, s.shared, e.action.turn);
    }
  }

  /** Over every history of runs and sweeps each RESERVED payment has an expiry. */
  lemma {:induction false} PlayKeepsHeldExpire(settles: bool, s0: State, events: seq<Event>)
    requires WellFormed(settles, s0) && Enrolled(s0) && ListsExpired(settles, s0, events)
    requires HeldExpire(s0.shared.tables)
    ensures HeldExpire(Play(settles, s0, events).shared.tables)
    decreases |events|
  {
    if events != [] {
      var n := |events| - 1;
      assert forall k :: 0 <= k < n ==> events[..n][..k] == events[..k];
      PlayKeepsHeldExpire(settles, s0, events[..n]);
      PlayKeepsEnrolled(settles, s0, events[..n]);
      ApplyKeepsHeldExpire(settles, Play(settles, s0, events[..n]), events[n]);
    }
  }

  /**
   * No reservation is forgotten: over every history a payment that is RESERVED has an expiry, and a sweep that
   * finds its row unlocked lists it exactly if that expiry has passed.
   */
  lemma {:induction false} EveryReservationIsFound(settles: bool, s0: State, events: seq<Event>, id: PaymentId,
                                                   now: int, locked: set<PaymentId>, order: seq<PaymentId>)
    requires WellFormed(settles, s0) && Enrolled(s0) && ListsExpired(settles, s0, events)
    requires HeldExpire(s0.shared.tables)
    requires Enumerates(Play(settles, s0, events).shared.tables, now, locked, order)
    requires var rows := Play(settles, s0, events).shared.tables.payments;
             id in rows && rows[id].status == Reserved && id !in locked
    ensures var expiry := Play(settles, s0, events).shared.tables.payments[id].expiresAt;
            expiry.Some? && (id in order <==> expiry.value < now)
  {
    PlayKeepsHeldExpire(settles, s0, events);
  }

  // ------------------------------------------------------------ reservations outlive their run

  predicate LongLived(start: int, t: Repository.Tables, id: PaymentId) {
    id in t.payments && t.payments[id].expiresAt.Some? ==> start + RESERVATION_TTL <= t.payments[id].expiresAt.value
  }

  lemma ApplyKeepsLongLived(settles: bool, starts: seq<int>, s: State, e: Event, i: nat)
    requires WellFormed(settles, s) && Enrolled(s) && |starts| == |s.procs| && i < |starts|
    requires MeetsDeadline(starts, e) && LongLived(starts[i], s.shared.tables, s.procs[i].payment.id)
    ensures LongLived(starts[i], Apply(settles, s, e).shared.tables, s.procs[i].payment.id)
  {
    if e.Tick? {
      SweepOnlyTouchesListed(settles, e.oracle, e.counter, e.order, 0, e.unloaded, World(s.shared, []));
    } else if e.action.who < |s.procs| && !s.procs[e.action.who].pc.Done? {
      var q := s.procs[e.action.who];
      assert e.action.who != i ==> q.payment.id != s.procs[i].payment.id;
      EffectOnRows(RequestAt(Pipeline(settles), q.pc).op, q.payment, s.shared, e.action.turn);
    }
  }

  lemma {:induction false} PlayKeepsLongLived(settles: bool, starts: seq<int>, s0: State, events: seq<Event>, i: nat)
    requires WellFormed(settles, s0) && Enrolled(s0) && |starts| == |s0.procs| && i < |starts|
    requires MeetDeadlines(starts, events) && LongLived(starts[i], s0.shared.tables, s0.procs[i].payment.id)
    ensures LongLived(starts[i], Play(settles, s0, events).shared.tables, s0.procs[i].payment.id)
    decreases |events|
  {
    if events != [] {
      var n := |events| - 1;
      PlayKeepsLongLived(settles, starts, s0, events[..n], i);
      PlayKeepsEnrolled(settles, s0, events[..n]);
      ApplyKeepsLongLived(settles, starts, Play(settles, s0, events[..n]), events[n], i);
    }
  }

  /** A history that starts with payments whose runs began at `starts` and none of which is reserved yet. */
  ghost predicate History(settles: bool, starts: seq<int>, s0: State, events: seq<Event>) {
    && WellFormed(settles, s0) && Enrolled(s0) && |starts| == |s0.procs|
    && (forall i :: 0 <= i < |starts| ==> LongLived(starts[i], s0.shared.tables, s0.procs[i].payment.id))
    && Clocked(events) && MeetDeadlines(starts, events) && ListsExpired(settles, s0, events)
  }

  lemma HistoryPrefix(settles: bool, starts: seq<int>, s0: State, events: seq<Event>, n: nat)
    requires History(settles, starts, s0, events) && n <= |events|
    ensures History(settles, starts, s0, events[..n])
  {
    forall k | 0 <= k < n
      ensures events[..n][..k] == events[..k]
    {
    }
  }

  /** Once time has passed the deadline of run i, its calls no longer touch anything. */
  lemma LateCallIsIdle(settles: bool, starts: seq<int>, s: State, e: Event, i: nat)
    requires WellFormed(settles, s) && |starts| == |s.procs| && i < |starts| && MeetsDeadline(starts, e)
    requires e.Call? && e.action.who == i && starts[i] + RUN_LIMIT < e.At()
    ensures !e.action.turn.reachable && Apply(settles, s, e).shared == s.shared
  {
    if !s.procs[i].pc.Done? {
      UnreachableIsIdle(RequestAt(Pipeline(settles), s.procs[i].pc).op, s.procs[i].payment, s.shared, e.action.turn);
    }
  }

  lemma {:induction false} PlayLast(settles: bool, s0: State, events: seq<Event>, j: nat)
    requires WellFormed(settles, s0) && j < |events|
    ensures Play(settles, s0, events[..j + 1]) == Apply(settles, Play(settles, s0, events[..j]), events[j])
  {
    assert events[..j + 1][..j] == events[..j];
  }

  /** Event j is a call of run i past its deadline. */
  predicate LateCall(starts: seq<int>, events: seq<Event>, j: nat, i: nat) {
    && j < |events| && i < |starts|
    && events[j].Call? && events[j].action.who == i && starts[i] + RUN_LIMIT < events[j].At()
  }

  /** Event j does not get through and changes nothing that is shared. */
  predicate IdleCall(settles: bool, s0: State, events: seq<Event>, j: nat)
    requires WellFormed(settles, s0) && j < |events|
  {
    && events[j].Call? && !events[j].action.turn.reachable
    && Play(settles, s0, events[..j + 1]).shared == Play(settles, s0, events[..j]).shared
  }

  lemma {:induction false} LateCallsAreIdle(settles: bool, starts: seq<int>, s0: State, events: seq<Event>,
                                            j: nat, i: nat)
    requires History(settles, starts, s0, events) && LateCall(starts, events, j, i)
    ensures IdleCall(settles, s0, events, j)
  {
    PlayKeepsEnrolled(settles, s0, events[..j]);
    PlayLast(settles, s0, events, j);
    assert MeetsDeadline(starts, events[j]);
    LateCallIsIdle(settles, starts, Play(settles, s0, events[..j]), events[j], i);
  }

  lemma {:induction false} ListedIsLate(settles: bool, starts: seq<int>, s0: State, events: seq<Event>, k: nat, i: nat)
    requires History(settles, starts, s0, events) && k < |events| && events[k].Tick?
    requires i < |starts| && s0.procs[i].payment.id in events[k].order
    ensures starts[i] + RESERVATION_TTL < events[k].now
  {
    assert MeetDeadlines(starts, events[..k]);
    PlayKeepsLongLived(settles, starts, s0, events[..k], i);
  }

  /**
   * On one clock, with calls that honour their deadline, runs and sweeps keep out of each other's way:
   * a sweep that lists a payment comes more than the full reservation time after its run started, so
   * the run is past its limit, and from then on no call of that run gets through or changes anything.
   */
  lemma {:induction false} SweepSparesActiveRuns(settles: bool, starts: seq<int>, s0: State, events: seq<Event>,
                                                 k: nat, i: nat)
    requires History(settles, starts, s0, events) && k < |events| && events[k].Tick?
    requires i < |starts| && s0.procs[i].payment.id in events[k].order
    ensures starts[i] + RUN_LIMIT < starts[i] + RESERVATION_TTL < events[k].now
    ensures forall j: nat :: k < j < |events| && events[j].Call? && events[j].action.who == i ==>
              IdleCall(settles, s0, events, j)
  {
    ListedIsLate(settles, starts, s0, events, k, i);
    forall j: nat | k < j < |events| && events[j].Call? && events[j].action.who == i
      ensures IdleCall(settles, s0, events, j)
    {
      assert events[k].At() <= events[j].At();
      LateCallsAreIdle(settles, starts, s0, events, j, i);
    }
  }

  // ------------------------------------------------------------ past its deadline a payment is abandoned

  /** The sweeps of a history from event `cut` on, with the state each of them found. */
  function RoundsFrom(settles: bool, s0: State, events: seq<Event>, cut: nat): seq<Round>
    requires WellFormed(settles, s0)
  {
    if |events| <= cut then []
    else
      var n := |events| - 1;
      var before := RoundsFrom(settles, s0, events[..n], cut);
      if events[n].Tick? then before + [RoundAt(Play(settles, s0, events[..n]).shared, events[n])] else before
  }

  /** The row of a payment as the last of some sweeps left it, or as it was before them. */
  ghost predicate RowIs(settles: bool, rounds: seq<Round>, id: PaymentId, start: Repository.Row, row: Repository.Row) {
    if rounds == [] then row == start
    else
      var end := AfterRound(settles, rounds[|rounds| - 1]).shared.tables.payments;
      && id in end && end[id] == row
      && id in rounds[0].found.tables.payments && rounds[0].found.tables.payments[id] == start
  }

  lemma {:induction false} OneMoreRound(settles: bool, rounds: seq<Round>, id: PaymentId, r: Round,
                                        start: Repository.Row)
    requires Abandoned(settles, rounds, id) && Finds(r, id)
    requires RowIs(settles, rounds, id, start, r.found.tables.payments[id])
    requires id in AfterRound(settles, r).shared.tables.payments
    ensures Abandoned(settles, rounds + [r], id)
    ensures RowIs(settles, rounds + [r], id, start, AfterRound(settles, r).shared.tables.payments[id])
  {
    var all := rounds + [r];
    forall k | 0 < k < |all|
      ensures Continues(settles, all[k - 1], all[k], id)
    {
      if k < |rounds| {
        assert Continues(settles, rounds[k - 1], rounds[k], id);
      }
    }
  }

  /** A call after the deadline of run i leaves the row of its payment alone. */
  lemma LateCallSparesRow(settles: bool, starts: seq<int>, s: State, e: Event, i: nat)
    requires WellFormed(settles, s) && Enrolled(s) && |starts| == |s.procs| && i < |starts|
    requires MeetsDeadline(starts, e) && e.Call? && starts[i] + RUN_LIMIT < e.At()
    ensures var id, t' := s.procs[i].payment.id, Apply(settles, s, e).shared.tables;
            id in t'.payments && t'.payments[id] == s.shared.tables.payments[id]
  {
    var a := e.action;
    if a.who == i {
      LateCallIsIdle(settles, starts, s, e, i);
    } else if a.who < |s.procs| && !s.procs[a.who].pc.Done? {
      var q := s.procs[a.who];
      assert q.payment.id != s.procs[i].payment.id;
      EffectOnRows(RequestAt(Pipeline(settles), q.pc).op, q.payment, s.shared, a.turn);
    }
  }

  /** From event `cut` on, the clock is past the deadline of run i. */
  predicate PastDeadline(starts: seq<int>, events: seq<Event>, cut: nat, i: nat) {
    && i < |starts|
    && forall k :: cut <= k < |events| ==> starts[i] + RUN_LIMIT < events[k].At()
  }

  /** The sweeps find the payment as the sweep before left it, and nothing else changes it from `at` to `end`. */
  ghost predicate AbandonedWith(settles: bool, rounds: seq<Round>, id: PaymentId,
                                at: Repository.Tables, end: Repository.Tables)
  {
    && id in at.payments && id in end.payments
    && Abandoned(settles, rounds, id)
    && RowIs(settles, rounds, id, at.payments[id], end.payments[id])
  }

  ghost predicate AbandonedSince(settles: bool, s0: State, events: seq<Event>, cut: nat, id: PaymentId)
    requires WellFormed(settles, s0) && cut <= |events|
  {
    AbandonedWith(settles, RoundsFrom(settles, s0, events, cut), id,
                  Play(settles, s0, events[..cut]).shared.tables, Play(settles, s0, events).shared.tables)
  }

  lemma {:induction false} AbandonedAtCut(settles: bool, s0: State, events: seq<Event>, id: PaymentId)
    requires WellFormed(settles, s0) && Enrolled(s0) && id in s0.shared.tables.payments
    ensures AbandonedSince(settles, s0, events, |events|, id)
  {
    PlayKeepsEnrolled(settles, s0, events);
    assert events[..|events|] == events;
  }

  /** One more event of a history, and what it adds to its sweeps and its state. */
  lemma {:induction false} OneMoreEvent(settles: bool, s0: State, events: seq<Event>, cut: nat)
    requires WellFormed(settles, s0) && cut < |events|
    ensures var n := |events| - 1;
            var s, before := Play(settles, s0, events[..n]), RoundsFrom(settles, s0, events[..n], cut);
            && events[..n][..cut] == events[..cut]
            && Play(settles, s0, events) == Apply(settles, s, events[n])
            && RoundsFrom(settles, s0, events, cut)
               == if events[n].Tick? then before + [RoundAt(s.shared, events[n])] else before
  {
  }

  lemma SweepKeepsAbandoned(settles: bool, s: State, e: Event, rounds: seq<Round>, id: PaymentId, at: Repository.Tables)
    requires WellFormed(settles, s) && Enrolled(s) && e.Tick?
    requires Enumerates(s.shared.tables, e.now, e.locked, e.order)
    requires AbandonedWith(settles, rounds, id, at, s.shared.tables)
    ensures AbandonedWith(settles, rounds + [RoundAt(s.shared, e)], id, at, Apply(settles, s, e).shared.tables)
  {
    ApplyOnTables(settles, s, e);
    OneMoreRound(settles, rounds, id, RoundAt(s.shared, e), at.payments[id]);
  }

  lemma CallKeepsAbandoned(settles: bool, starts: seq<int>, s: State, e: Event, rounds: seq<Round>,
                           i: nat, at: Repository.Tables)
    requires WellFormed(settles, s) && Enrolled(s) && |starts| == |s.procs| && i < |starts|
    requires MeetsDeadline(starts, e) && e.Call? && starts[i] + RUN_LIMIT < e.At()
    requires AbandonedWith(settles, rounds, s.procs[i].payment.id, at, s.shared.tables)
    ensures AbandonedWith(settles, rounds, s.procs[i].payment.id, at, Apply(settles, s, e).shared.tables)
  {
    LateCallSparesRow(settles, starts, s, e, i);
  }

  lemma LatePrefix(settles: bool, starts: seq<int>, s0: State, events: seq<Event>, cut: nat, i: nat)
    requires History(settles, starts, s0, events) && cut < |events| && PastDeadline(starts, events, cut, i)
    ensures var before := events[..|events| - 1];
            History(settles, starts, s0, before) && PastDeadline(starts, before, cut, i)
  {
    HistoryPrefix(settles, starts, s0, events, |events| - 1);
  }

  /** One more event of either kind, past the deadline of run i. */
  lemma OneMoreKeepsAbandoned(settles: bool, starts: seq<int>, s: State, e: Event, rounds: seq<Round>,
                              i: nat, at: Repository.Tables)
    requires WellFormed(settles, s) && Enrolled(s) && |starts| == |s.procs| && i < |starts|
    requires MeetsDeadline(starts, e) && starts[i] + RUN_LIMIT < e.At()
    requires e.Tick? ==> Enumerates(s.shared.tables, e.now, e.locked, e.order)
    requires AbandonedWith(settles, rounds, s.procs[i].payment.id, at, s.shared.tables)
    ensures var after := if e.Tick? then rounds + [RoundAt(s.shared, e)] else rounds;
            AbandonedWith(settles, after, s.procs[i].payment.id, at, Apply(settles, s, e).shared.tables)
  {
    if e.Tick? {
      SweepKeepsAbandoned(settles, s, e, rounds, s.procs[i].payment.id, at);
    } else {
      CallKeepsAbandoned(settles, starts, s, e, rounds, i, at);
    }
  }

  /** The last event of a sequence meets what a history asks of it, and comes past the deadline of run i. */
  ghost predicate LastIsLate(settles: bool, starts: seq<int>, s0: State, events: seq<Event>, i: nat)
    requires WellFormed(settles, s0) && events != []
  {
    var n := |events| - 1;
    && i < |starts| && MeetsDeadline(starts, events[n]) && starts[i] + RUN_LIMIT < events[n].At()
    && (events[n].Tick? ==>
          Enumerates(Play(settles, s0, events[..n]).shared.tables, events[n].now, events[n].locked, events[n].order))
  }

  lemma HistoryEndsLate(settles: bool, starts: seq<int>, s0: State, events: seq<Event>, cut: nat, i: nat)
    requires History(settles, starts, s0, events) && cut < |events| && PastDeadline(starts, events, cut, i)
    ensures LastIsLate(settles, starts, s0, events, i)
  {
    assert MeetsDeadline(starts, events[|events| - 1]);
  }

  lemma {:induction false} EventKeepsAbandoned(settles: bool, starts: seq<int>, s0: State, events: seq<Event>,
                                               cut: nat, i: nat)
    requires WellFormed(settles, s0) && Enrolled(s0) && |starts| == |s0.procs| && i < |starts|
    requires cut < |events| && LastIsLate(settles, starts, s0, events, i)
    requires AbandonedSince(settles, s0, events[..|events| - 1], cut, s0.procs[i].payment.id)
    ensures AbandonedSince(settles, s0, events, cut, s0.procs[i].payment.id)
  {
    var n := |events| - 1;
    var s, at := Play(settles, s0, events[..n]), Play(settles, s0, events[..cut]).shared.tables;
    OneMoreEvent(settles, s0, events, cut);
    PlayKeepsEnrolled(settles, s0, events[..n]);
    OneMoreKeepsAbandoned(settles, starts, s, events[n], RoundsFrom(settles, s0, events[..n], cut), i, at);
  }

  /**
   * What the deadline buys: from any moment past it, the sweeps of a history find the payment exactly
   * as the sweep before left it, whatever all other runs do, so it is abandoned in the sense of the
   * recovery theorems.
   */
  lemma {:induction false} AbandonedPastDeadline(settles: bool, starts: seq<int>, s0: State, events: seq<Event>,
                                                 cut: nat, i: nat)
    requires History(settles, starts, s0, events) && cut <= |events| && PastDeadline(starts, events, cut, i)
    ensures AbandonedSince(settles, s0, events, cut, s0.procs[i].payment.id)
    decreases |events|
  {
    if |events| == cut {
      AbandonedAtCut(settles, s0, events, s0.procs[i].payment.id);
    } else {
      LatePrefix(settles, starts, s0, events, cut, i);
      AbandonedPastDeadline(settles, starts, s0, events[..|events| - 1], cut, i);
      HistoryEndsLate(settles, starts, s0, events, cut, i);
      EventKeepsAbandoned(settles, starts, s0, events, cut, i);
    }
  }

  /**
   * A payment that its run left RESERVED when the deadline passed: over the rest of every history the
   * sweeps release it exactly as often as counted, and it ends ABORTED exactly if one of them closed it.
   */
  lemma {:induction false} RecoveredPastDeadline(settles: bool, starts: seq<int>, s0: State, events: seq<Event>,
                                                 cut: nat, i: nat, row: Repository.Row, expiry: int)
    requires History(settles, starts, s0, events) && cut <= |events| && PastDeadline(starts, events, cut, i)
    requires row.payment.id == s0.procs[i].payment.id && row.status == Reserved && row.expiresAt == Some(expiry)
    requires var at := Play(settles, s0, events[..cut]).shared.tables.payments;
             row.payment.id in at && at[row.payment.id] == row
    ensures var rounds := RoundsFrom(settles, s0, events, cut);
            var end := Play(settles, s0, events).shared.tables.payments;
            && row.payment.id in end
            && end[row.payment.id] == RowAfter(settles, rounds, row, expiry)
            && ReleasesIn(settles, rounds, row.payment.id) == GivenBack(settles, rounds, row.payment, expiry)
  {
    AbandonedPastDeadline(settles, starts, s0, events, cut, i);
    var rounds := RoundsFrom(settles, s0, events, cut);
    if rounds != [] {
      ReleasesAreCounted(settles, rounds, row, expiry);
    }
  }
}
