/** Any number of sweeps over one reservation: how often it is released, and whether it is closed. */
module SweepRounds {
  import opened Domain
  import opened SagaCore
  import opened Steps
  import opened Recovery
  import opened Sweep
  import Bank
  import Interleaving
  import Repository

  // ------------------------------------------------------------ any number of sweeps

  /**
   * One sweep: the shared state it finds, the time, the rows others have locked, the order of its
   * list, the payments it cannot load, the saga's counter, and what its calls meet.
   */
  datatype Round = Round(found: Shared, now: int, locked: set<PaymentId>, order: seq<PaymentId>,
                         unloaded: set<PaymentId>, counter: int, oracle: Oracle)

  function AfterRound(settles: bool, r: Round): World {
    SweepFrom(Wired(settles, r.oracle), r.counter, r.order, 0, r.unloaded, World(r.found, []))
  }

  /** The world in which the sweep reaches the payment. */
  function ReachedIn(settles: bool, r: Round, id: PaymentId): World {
    Reached(Wired(settles, r.oracle), r.counter, r.order, 0, r.unloaded, World(r.found, []), id)
  }

  /** A sweep that finds the payment in the table and lists the expired rows. */
  ghost predicate Finds(r: Round, id: PaymentId) {
    && r.found.tables.Valid() && id in r.found.tables.payments
    && Enumerates(r.found.tables, r.now, r.locked, r.order)
  }

  /** Nothing happened to the payment between two sweeps. */
  predicate Continues(settles: bool, r: Round, next: Round, id: PaymentId) {
    && id in AfterRound(settles, r).shared.tables.payments && id in next.found.tables.payments
    && next.found.tables.payments[id] == AfterRound(settles, r).shared.tables.payments[id]
  }

  /** Between the sweeps anything may happen, except to this payment: it has been abandoned. */
  ghost predicate Abandoned(settles: bool, rounds: seq<Round>, id: PaymentId) {
    && (forall r :: 0 <= r < |rounds| ==> Finds(rounds[r], id))
    && (forall r :: 0 < r < |rounds| ==> Continues(settles, rounds[r - 1], rounds[r], id))
  }

  function ReleasesIn(settles: bool, rounds: seq<Round>, id: PaymentId): nat {
    if rounds == [] then 0
    else
      var n := |rounds| - 1;
      ReleasesIn(settles, rounds[..n], id) + Releases(AfterRound(settles, rounds[n]).log, id)
  }

  /** The sweep would recover a reservation with this expiry. */
  predicate Due(r: Round, id: PaymentId, expiry: int) {
    expiry < r.now && id !in r.locked && id !in r.unloaded
  }

  /** In this sweep the release, or the first ABORTED write, gets through. */
  predicate Pays(settles: bool, r: Round, p: Payment) {
    RecoveryPays(settles, r.oracle, r.counter, ReachedIn(settles, r, p.id), p)
  }

  predicate Closes(settles: bool, r: Round, p: Payment) {
    RecoveryCloses(settles, r.oracle, r.counter, ReachedIn(settles, r, p.id))
  }

  /** What a sweep does to a reservation: its release gets through, and it closes it. */
  datatype Handling = Handling(pays: bool, closes: bool)

  function HandlingOf(settles: bool, r: Round, p: Payment, expiry: int): Handling {
    Handling(Due(r, p.id, expiry) && Pays(settles, r, p), Due(r, p.id, expiry) && Closes(settles, r, p))
  }

  function Handlings(settles: bool, rounds: seq<Round>, p: Payment, expiry: int): seq<Handling> {
    seq(|rounds|, i requires 0 <= i < |rounds| => HandlingOf(settles, rounds[i], p, expiry))
  }

  predicate AnyCloses(outs: seq<Handling>) {
    exists r :: 0 <= r < |outs| && outs[r].closes
  }

  /** The releases up to and including the first sweep that closes. */
  function Counted(outs: seq<Handling>): nat {
    if outs == [] then 0
    else
      var n := |outs| - 1;
      if outs[n].pays && !AnyCloses(outs[..n]) then Counted(outs[..n]) + 1 else Counted(outs[..n])
  }

  /** Some sweep that was due got its ABORTED write through. */
  predicate Closed(settles: bool, rounds: seq<Round>, p: Payment, expiry: int) {
    AnyCloses(Handlings(settles, rounds, p, expiry))
  }

  /** The due sweeps up to and including the first that closes whose release gets through. */
  function GivenBack(settles: bool, rounds: seq<Round>, p: Payment, expiry: int): nat {
    Counted(Handlings(settles, rounds, p, expiry))
  }

  lemma AnyClosesLast(outs: seq<Handling>)
    requires outs != []
    ensures AnyCloses(outs) <==> AnyCloses(outs[..|outs| - 1]) || outs[|outs| - 1].closes
  {
    var n := |outs| - 1;
    if r :| 0 <= r < n && outs[..n][r].closes {
      assert outs[r].closes;
    }
    if r :| 0 <= r < n && outs[r].closes {
      assert outs[..n][r].closes;
    }
  }

  /** What one more sweep adds. */
  lemma {:induction false} OneMoreHandling(settles: bool, rounds: seq<Round>, p: Payment, expiry: int)
    requires rounds != []
    ensures var n := |rounds| - 1;
            var closed, out := Closed(settles, rounds[..n], p, expiry), HandlingOf(settles, rounds[n], p, expiry);
            && (Closed(settles, rounds, p, expiry) <==> closed || out.closes)
            && GivenBack(settles, rounds, p, expiry)
               == GivenBack(settles, rounds[..n], p, expiry) + (if out.pays && !closed then 1 else 0)
  {
    var n, outs := |rounds| - 1, Handlings(settles, rounds, p, expiry);
    assert outs[..n] == Handlings(settles, rounds[..n], p, expiry);
    AnyClosesLast(outs);
  }

  /** One sweep over a reservation. */
  lemma RoundOfReserved(settles: bool, r: Round, id: PaymentId, expiry: int)
    requires Finds(r, id)
    requires r.found.tables.payments[id].status == Reserved && r.found.tables.payments[id].expiresAt == Some(expiry)
    ensures var p := r.found.tables.payments[id].payment;
            var out := HandlingOf(settles, r, p, expiry);
            Handled(id, World(r.found, []), AfterRound(settles, r), out.pays, out.closes)
  {
    assert r.order[0..] == r.order;
    SweepOfHeld(settles, r.oracle, r.counter, r.order, 0, r.unloaded, id, World(r.found, []));
  }

  /** One sweep over a payment that is ABORTED. */
  lemma RoundOfAborted(settles: bool, r: Round, id: PaymentId)
    requires Finds(r, id) && r.found.tables.payments[id].status == Aborted
    ensures Handled(id, World(r.found, []), AfterRound(settles, r), false, false)
  {
    assert r.order[0..] == r.order;
    RestSparesOthers(settles, r.oracle, r.counter, r.order, 0, r.unloaded, id, World(r.found, []));
  }

  /** The row that the last sweep leaves, and the number of releases in all of them. */
  ghost predicate EndsWith(settles: bool, rounds: seq<Round>, id: PaymentId, row: Repository.Row, releases: nat)
    requires rounds != []
  {
    var end := AfterRound(settles, rounds[|rounds| - 1]).shared.tables.payments;
    id in end && end[id] == row && ReleasesIn(settles, rounds, id) == releases
  }

  lemma NoReleases(id: PaymentId)
    ensures Releases([], id) == 0
  {
  }

  lemma AbandonedPrefix(settles: bool, rounds: seq<Round>, id: PaymentId)
    requires Abandoned(settles, rounds, id) && rounds != []
    ensures Abandoned(settles, rounds[..|rounds| - 1], id)
  {
    var init := rounds[..|rounds| - 1];
    forall r | 0 < r < |init|
      ensures Continues(settles, init[r - 1], init[r], id)
    {
      assert Continues(settles, rounds[r - 1], rounds[r], id);
    }
  }

  /** The row after sweeps over a reservation: ABORTED once some due sweep closed it. */
  ghost function RowAfter(settles: bool, rounds: seq<Round>, row: Repository.Row, expiry: int): Repository.Row {
    if Closed(settles, rounds, row.payment, expiry) then row.(status := Aborted) else row
  }

  /** One more sweep. */
  lemma {:induction false} LastRound(settles: bool, rounds: seq<Round>, row: Repository.Row, expiry: int)
    requires rounds != [] && Finds(rounds[|rounds| - 1], row.payment.id)
    requires row.status == Reserved && row.expiresAt == Some(expiry)
    requires var n := |rounds| - 1;
             && rounds[n].found.tables.payments[row.payment.id] == RowAfter(settles, rounds[..n], row, expiry)
             && ReleasesIn(settles, rounds[..n], row.payment.id) == GivenBack(settles, rounds[..n], row.payment, expiry)
    ensures EndsWith(settles, rounds, row.payment.id, RowAfter(settles, rounds, row, expiry),
                     GivenBack(settles, rounds, row.payment, expiry))
  {
    var n, p := |rounds| - 1, row.payment;
    OneMoreHandling(settles, rounds, p, expiry);
    NoReleases(p.id);
    if Closed(settles, rounds[..n], p, expiry) {
      RoundOfAborted(settles, rounds[n], p.id);
    } else {
      RoundOfReserved(settles, rounds[n], p.id, expiry);
    }
  }

  /**
   * Over any number of sweeps of an abandoned reservation, whatever fails in them: it is released once
   * for every due sweep, up to and including the first whose ABORTED write got through, whose release
   * got through; and it ends ABORTED if and only if there was such a write. So it is released exactly
   * once and closed exactly when that count is 1 and some due sweep closed it.
   */
  lemma {:induction false} ReleasesAreCounted(settles: bool, rounds: seq<Round>, row: Repository.Row, expiry: int)
    requires rounds != [] && Abandoned(settles, rounds, row.payment.id)
    requires rounds[0].found.tables.payments[row.payment.id] == row
    requires row.status == Reserved && row.expiresAt == Some(expiry)
    ensures EndsWith(settles, rounds, row.payment.id, RowAfter(settles, rounds, row, expiry),
                     GivenBack(settles, rounds, row.payment, expiry))
    decreases |rounds|
  {
    var n, id := |rounds| - 1, row.payment.id;
    if n > 0 {
      AbandonedPrefix(settles, rounds, id);
      ReleasesAreCounted(settles, rounds[..n], row, expiry);
      assert Continues(settles, rounds[n - 1], rounds[n], id) && rounds[..n][n - 1] == rounds[n - 1];
    } else {
      assert rounds[..n] == [];
    }
    LastRound(settles, rounds, row, expiry);
  }

  ghost predicate SomeDue(rounds: seq<Round>, id: PaymentId, expiry: int) {
    exists r :: 0 <= r < |rounds| && Due(rounds[r], id, expiry)
  }

  /** If every sweep that releases closes and the other way round, there is at most one release. */
  lemma {:induction false} AllThroughGivesOne(outs: seq<Handling>)
    requires forall r :: 0 <= r < |outs| ==> outs[r].pays == outs[r].closes
    ensures Counted(outs) == if AnyCloses(outs) then 1 else 0
    decreases |outs|
  {
    if outs != [] {
      AllThroughGivesOne(outs[..|outs| - 1]);
      AnyClosesLast(outs);
    }
  }

  /**
   * With calls that get through, an abandoned reservation is released exactly once and ends ABORTED as
   * soon as some sweep is due, over any number of sweeps, and is left alone until then.
   */
  lemma ReleasedExactlyOnce(settles: bool, rounds: seq<Round>, row: Repository.Row, expiry: int)
    requires rounds != [] && Abandoned(settles, rounds, row.payment.id)
    requires rounds[0].found.tables.payments[row.payment.id] == row
    requires row.status == Reserved && row.expiresAt == Some(expiry)
    requires forall r :: 0 <= r < |rounds| && Due(rounds[r], row.payment.id, expiry) ==>
               Pays(settles, rounds[r], row.payment) && Closes(settles, rounds[r], row.payment)
    ensures if SomeDue(rounds, row.payment.id, expiry)
            then EndsWith(settles, rounds, row.payment.id, row.(status := Aborted), 1)
            else EndsWith(settles, rounds, row.payment.id, row, 0)
  {
    ReleasesAreCounted(settles, rounds, row, expiry);
    var outs := Handlings(settles, rounds, row.payment, expiry);
    AllThroughGivesOne(outs);
    if r :| 0 <= r < |rounds| && Due(rounds[r], row.payment.id, expiry) {
      assert outs[r].closes;
    }
  }

  /** A sweep that closes without releasing, and no release before it. */
  lemma {:induction false} NeverPaid(outs: seq<Handling>, first: nat)
    requires first < |outs| && outs[first].closes && forall r :: 0 <= r <= first ==> !outs[r].pays
    ensures Counted(outs) == 0
    decreases |outs|
  {
    var n := |outs| - 1;
    if first < n {
      assert outs[..n][first].closes;
      NeverPaid(outs[..n], first);
    } else {
      NothingPaid(outs[..n]);
    }
  }

  lemma {:induction false} NothingPaid(outs: seq<Handling>)
    requires forall r :: 0 <= r < |outs| ==> !outs[r].pays
    ensures Counted(outs) == 0
    decreases |outs|
  {
    if outs != [] {
      NothingPaid(outs[..|outs| - 1]);
    }
  }

  lemma ClosedUnpaid(settles: bool, rounds: seq<Round>, first: nat, p: Payment, expiry: int)
    requires first < |rounds| && forall r :: 0 <= r < first ==> !Due(rounds[r], p.id, expiry)
    requires Due(rounds[first], p.id, expiry) && Closes(settles, rounds[first], p) && !Pays(settles, rounds[first], p)
    ensures Closed(settles, rounds, p, expiry) && GivenBack(settles, rounds, p, expiry) == 0
  {
    var outs := Handlings(settles, rounds, p, expiry);
    assert outs[first].closes;
    NeverPaid(outs, first);
  }

  /**
   * The other way to fail: if the release of the first due sweep is refused and its ABORTED write gets
   * through, the hold is never given back, however many sweeps follow.
   */
  lemma RefusedReleaseIsFinal(settles: bool, rounds: seq<Round>, first: nat, row: Repository.Row, expiry: int)
    requires Abandoned(settles, rounds, row.payment.id) && first < |rounds|
    requires rounds[0].found.tables.payments[row.payment.id] == row
    requires row.status == Reserved && row.expiresAt == Some(expiry)
    requires forall r :: 0 <= r < first ==> !Due(rounds[r], row.payment.id, expiry)
    requires Due(rounds[first], row.payment.id, expiry)
    requires Closes(settles, rounds[first], row.payment) && !Pays(settles, rounds[first], row.payment)
    ensures EndsWith(settles, rounds, row.payment.id, row.(status := Aborted), 0)
  {
    ReleasesAreCounted(settles, rounds, row, expiry);
    ClosedUnpaid(settles, rounds, first, row.payment, expiry);
  }

  /**
   * A shared counter left at 1 to 5 by another payment loses the hold: if the first due sweep meets it and
   * the first call it makes for the payment gets through, the payment is closed and never given back.
   */
  lemma SmallCounterLosesHold(settles: bool, rounds: seq<Round>, first: nat, row: Repository.Row, expiry: int)
    requires Abandoned(settles, rounds, row.payment.id) && first < |rounds|
    requires rounds[0].found.tables.payments[row.payment.id] == row
    requires row.status == Reserved && row.expiresAt == Some(expiry)
    requires forall r :: 0 <= r < first ==> !Due(rounds[r], row.payment.id, expiry)
    requires Due(rounds[first], row.payment.id, expiry) && 0 < rounds[first].counter < 6
    requires rounds[first].oracle(|ReachedIn(settles, rounds[first], row.payment.id).log|).reachable
    ensures EndsWith(settles, rounds, row.payment.id, row.(status := Aborted), 0)
  {
    var r, p := rounds[first], row.payment;
    CounterCases(settles, r.oracle, r.counter, ReachedIn(settles, r, p.id), p);
    RefusedReleaseIsFinal(settles, rounds, first, row, expiry);
  }

  // ------------------------------------------------------------ a failed run and then the sweeps

  /** An ABORTED payment is never released by a sweep. */
  lemma {:induction false} AbortedIsLeftAlone(settles: bool, rounds: seq<Round>, row: Repository.Row)
    requires rounds != [] && Abandoned(settles, rounds, row.payment.id) && row.status == Aborted
    requires rounds[0].found.tables.payments[row.payment.id] == row
    ensures EndsWith(settles, rounds, row.payment.id, row, 0)
    decreases |rounds|
  {
    var n, id := |rounds| - 1, row.payment.id;
    NoReleases(id);
    if n > 0 {
      AbandonedPrefix(settles, rounds, id);
      AbortedIsLeftAlone(settles, rounds[..n], row);
      assert Continues(settles, rounds[n - 1], rounds[n], id) && rounds[..n][n - 1] == rounds[n - 1];
    } else {
      assert rounds[..n] == [];
    }
    RoundOfAborted(settles, rounds[n], id);
  }

  /** One of k calls from number `from` on gets through. */
  predicate AnyThrough(o: Oracle, from: nat, k: nat)
    decreases k
  {
    k > 0 && (o(from).reachable || AnyThrough(o, from + 1, k - 1))
  }

  /** The number of ABORTED writes among the compensations of steps k-1..0, all before the reservation. */
  function Tries(k: nat): nat
    requires k <= 5
  {
    if k == 0 then 0 else if k <= 3 then 1 else k - 2
  }

  lemma TriesOfStep(settles: bool, k: nat)
    requires k < 5
    ensures |CompCalls(Pipeline(settles)[k])| == Tries(k + 1) - Tries(k)
  {
    var kinds := Pipeline(settles);
    assert kinds[..7] == [Validate, Lookup, Route, Quote, Screen, Reserve, Commit];
    assert kinds[k] == kinds[..7][k];
  }

  /** What compensating step k does to the payment: the ABORTED write is tried if the step has one. */
  predicate TriesAbort(o: Oracle, p: Payment, k: nat, w: World, w': World)
    requires k < 5
  {
    && Known(w'.shared, p)
    && |w'.log| == |w.log| + (Tries(k + 1) - Tries(k))
    && Handled(p.id, w, w', false, Tries(k) < Tries(k + 1) && o(|w.log|).reachable)
  }

  lemma {:induction false} ThroughFirst(o: Oracle, from: nat, k: nat)
    requires 0 < k <= 5
    ensures var more := Tries(k) - Tries(k - 1);
            AnyThrough(o, from, Tries(k))
            <==> (more > 0 && o(from).reachable) || AnyThrough(o, from + more, Tries(k - 1))
  {
  }

  /** Run's own rollback drops errors, so each of these writes is tried. */
  lemma {:induction false} TriesAdd(steps: seq<Step<Payment, World>>, o: Oracle, p: Payment, w: World, k: nat)
    requires Known(w.shared, p) && k <= 5 <= |steps|
    requires forall i: nat, v: World {:trigger steps[i].comp(p, v)} ::
               i < 5 && Known(v.shared, p) ==> TriesAbort(o, p, i, v, steps[i].comp(p, v).0)
    ensures Handled(p.id, w, Rollback(steps, k, p, w).world, false, AnyThrough(o, |w.log|, Tries(k)))
    decreases k
  {
    if k > 0 {
      var w1 := steps[k - 1].comp(p, w).0;
      assert TriesAbort(o, p, k - 1, w, w1);
      TriesAdd(steps, o, p, w1, k - 1);
      TryThenRest(o, p, k, w, w1, Rollback(steps, k - 1, p, w1).world);
    }
  }

  lemma {:induction false} TryThenRest(o: Oracle, p: Payment, k: nat, w: World, w1: World, w2: World)
    requires 0 < k <= 5 && TriesAbort(o, p, k - 1, w, w1)
    requires Handled(p.id, w1, w2, false, AnyThrough(o, |w1.log|, Tries(k - 1)))
    ensures Handled(p.id, w, w2, false, AnyThrough(o, |w.log|, Tries(k)))
  {
    HandledThen(p.id, w, w1, w2, false, Tries(k - 1) < Tries(k) && o(|w.log|).reachable,
                AnyThrough(o, |w1.log|, Tries(k - 1)));
    ThroughFirst(o, |w.log|, k);
  }

  lemma EarlierStepTries(settles: bool, o: Oracle, p: Payment, i: nat, w: World, w': World, ok: bool)
    requires i < 5 && Compensated(Pipeline(settles)[i], o, p, w, w', ok)
    ensures TriesAbort(o, p, i, w, w')
  {
    TriesOfStep(settles, i);
    Interleaving.PipelineShape(settles);
  }

  lemma {:induction false} EarlierRollback(settles: bool, steps: seq<Step<Payment, World>>, o: Oracle, p: Payment,
                                           w: World, k: nat)
    requires Known(w.shared, p) && k <= 5 && CompensateLike(steps, Pipeline(settles), o, p)
    ensures Handled(p.id, w, Rollback(steps, k, p, w).world, false, AnyThrough(o, |w.log|, Tries(k)))
  {
    forall i: nat, v: World | i < 5 && Known(v.shared, p)
      ensures TriesAbort(o, p, i, v, steps[i].comp(p, v).0)
    {
      EarlierStepTries(settles, o, p, i, v, steps[i].comp(p, v).0, steps[i].comp(p, v).1);
    }
    TriesAdd(steps, o, p, w, k);
  }

  /** One of the four ABORTED writes of a rollback from w gets through. */
  predicate SomeAbortThrough(o: Oracle, w: World) {
    AnyThrough(o, |w.log| + 1, 4)
  }

  lemma {:induction false} ReleasedThenTried(o: Oracle, p: Payment, w: World, w1: World, w2: World)
    requires Handled(p.id, w, w1, ReleaseThrough(o, w, p), AbortThrough(o, w)) && |w1.log| == |w.log| + 2
    requires Handled(p.id, w1, w2, false, AnyThrough(o, |w1.log|, 3))
    ensures Handled(p.id, w, w2, ReleaseThrough(o, w, p), SomeAbortThrough(o, w))
  {
    HandledThen(p.id, w, w1, w2, ReleaseThrough(o, w, p), AbortThrough(o, w), AnyThrough(o, |w1.log|, 3));
  }

  /** Run's own rollback of a reservation: any of four writes can make it ABORTED. */
  lemma {:induction false} RollbackOfReserved(settles: bool, steps: seq<Step<Payment, World>>, o: Oracle, p: Payment,
                                              w: World, k: nat)
    requires Known(w.shared, p) && k == 6 && CompensateLike(steps, Pipeline(settles), o, p)
    ensures Handled(p.id, w, Rollback(steps, k, p, w).world, ReleaseThrough(o, w, p), SomeAbortThrough(o, w))
  {
    var (w1, ok) := steps[k - 1].comp(p, w);
    assert Compensated(Pipeline(settles)[k - 1], o, p, w, w1, ok);
    Interleaving.PipelineShape(settles);
    EarlierRollback(settles, steps, o, p, w1, k - 1);
    ReleasedThenTried(o, p, w, w1, Rollback(steps, k - 1, p, w1).world);
  }

  /**
   * A run that fails after its reservation rolls back, and sweeps follow. Together they release once
   * for the rollback if its release got through, and then, exactly if all four of its ABORTED writes
   * failed, once more for every sweep counted by GivenBack: a rollback that released and recorded
   * nothing leads to a second release.
   */
  lemma {:induction false} ReleasesOfRunAndSweeps(settles: bool, o: Oracle, w: World, rounds: seq<Round>,
                                                  row: Repository.Row, expiry: int)
    requires Known(w.shared, row.payment) && w.shared.tables.payments[row.payment.id] == row
    requires row.status == Reserved && row.expiresAt == Some(expiry)
    requires rounds != [] && Abandoned(settles, rounds, row.payment.id)
    requires var w' := Rollback(Wired(settles, o), 6, row.payment, w).world;
             && row.payment.id in w'.shared.tables.payments
             && rounds[0].found.tables.payments[row.payment.id] == w'.shared.tables.payments[row.payment.id]
    ensures var id, w' := row.payment.id, Rollback(Wired(settles, o), 6, row.payment, w).world;
            && Releases(w'.log, id) - Releases(w.log, id) == (if ReleaseThrough(o, w, row.payment) then 1 else 0)
            && if SomeAbortThrough(o, w)
               then EndsWith(settles, rounds, id, row.(status := Aborted), 0)
               else EndsWith(settles, rounds, id, RowAfter(settles, rounds, row, expiry),
                             GivenBack(settles, rounds, row.payment, expiry))
  {
    WiredCompensateLike(settles, o, row.payment);
    RollbackOfReserved(settles, Wired(settles, o), o, row.payment, w, 6);
    if SomeAbortThrough(o, w) {
      AbortedIsLeftAlone(settles, rounds, row.(status := Aborted));
    } else {
      ReleasesAreCounted(settles, rounds, row, expiry);
    }
  }

  // ------------------------------------------------------------ and the balances

  /**
   * The smallest input on which exactly-once fails: the release goes through and the first ABORTED
   * write does not, twice. The row stays RESERVED and the account gains the amount twice.
   */
  lemma FailedAbortWriteReleasesAgain(settles: bool, o: Oracle, id: PaymentId, s: Shared)
    requires Held(s, id) && s.tables.payments[id].payment.sourceAccount in s.book.accounts
    requires o(0).reachable && !o(1).reachable
    ensures var row, b := s.tables.payments[id], s.book.accounts;
            var first := Recover(Wired(settles, o), 0, id, World(s, [])).shared;
            var second := Recover(Wired(settles, o), 0, id, World(first, [])).shared;
            && first.tables == s.tables && second.tables == s.tables
            && second.book.accounts
               == b[row.payment.sourceAccount := b[row.payment.sourceAccount] + 2 * row.payment.amount]
  {
    HalfRecovered(settles, o, id, s);
    HalfRecovered(settles, o, id, Recover(Wired(settles, o), 0, id, World(s, [])).shared);
  }

  lemma HalfRecovered(settles: bool, o: Oracle, id: PaymentId, s: Shared)
    requires Held(s, id) && s.tables.payments[id].payment.sourceAccount in s.book.accounts
    requires o(0).reachable && !o(1).reachable
    ensures var p := s.tables.payments[id].payment;
            Recover(Wired(settles, o), 0, id, World(s, [])).shared
            == s.(book := Bank.Apply(s.book, Bank.Release, p.sourceAccount, p.amount))
  {
    var p, w := s.tables.payments[id].payment, World(s, []);
    Interleaving.PipelineShape(settles);
    assert Pipeline(settles)[5].Reserve?;
    ReleaseThenLostWrite(p, w, o);
    assert !Wired(settles, o)[5].comp(p, w).1;
  }

  lemma ReleaseThenLostWrite(p: Payment, w: World, o: Oracle)
    requires p.sourceAccount in w.shared.book.accounts && o(|w.log|).reachable && !o(|w.log| + 1).reachable
    ensures var (w', ok) := RunCalls(CompCalls(Reserve), 0, p, w, o);
            && !ok
            && w'.shared == w.shared.(book := Bank.Apply(w.shared.book, Bank.Release, p.sourceAccount, p.amount))
  {
    RunTwo(CompCalls(Reserve), p, w, o);
  }
}
