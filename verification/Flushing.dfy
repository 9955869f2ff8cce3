/** One flush of the outbox relay as it runs, and as a run of the relay machine. */
module Flushing {
  import opened Relay

  /** What one flush leaves behind if it published its first `sent` rows and its marks took effect or not. */
  function Flush(d: Desk, sent: nat, marked: bool): Desk
    requires |d.relays| == 1 && sent <= |Pick(d.outbox, {})|
  {
    var batch := Pick(d.outbox, {});
    d.(outbox := if marked then Mark(d.outbox, batch[..sent]) else d.outbox,
       log := d.log + batch[..sent],
       wasted := if marked then d.wasted else d.wasted + batch[..sent])
  }

  /** The desk in the middle of a flush. */
  function InFlush(d: Desk, sent: nat): Desk
    requires sent <= |Pick(d.outbox, {})|
  {
    var batch := Pick(d.outbox, {});
    d.(log := d.log + batch[..sent], relays := [Busy(batch, sent)])
  }

  function Publishes(n: nat): (events: seq<Relay.Event>)
    ensures |events| == n && forall i :: 0 <= i < n ==> events[i] == Publish(0)
  {
    seq(n, i => Publish(0))
  }

  lemma OnePublish(d: Desk, sent: nat)
    requires sent < |Pick(d.outbox, {})|
    ensures Step(InFlush(d, sent), Publish(0)) == InFlush(d, sent + 1)
  {
    var batch := Pick(d.outbox, {});
    assert d.log + batch[..sent + 1] == (d.log + batch[..sent]) + [batch[sent]];
    assert [Busy(batch, sent)][0 := Busy(batch, sent + 1)] == [Busy(batch, sent + 1)];
  }

  lemma BeginOfFlush(d: Desk)
    requires |d.relays| == 1 && d.relays[0].Idle?
    ensures Step(d, BeginFlush(0)) == InFlush(d, 0)
  {
    var batch := Pick(d.outbox, {});
    assert Locked(d.relays) == {};
    assert d.log + batch[..0] == d.log && d.relays[0 := Busy(batch, 0)] == [Busy(batch, 0)];
  }

  lemma FinishOfFlush(d: Desk, sent: nat, marked: bool)
    requires |d.relays| == 1 && d.relays[0].Idle? && sent <= |Pick(d.outbox, {})|
    ensures Step(InFlush(d, sent), Finish(0, marked)) == Flush(d, sent, marked)
  {
    var batch := Pick(d.outbox, {});
    assert [Busy(batch, sent)][0 := Idle] == d.relays;
  }

  lemma OneMoreEvent(sent: nat)
    requires sent > 0
    ensures [BeginFlush(0)] + Publishes(sent) == ([BeginFlush(0)] + Publishes(sent - 1)) + [Publish(0)]
  {
  }

  lemma BeginRun(d: Desk)
    requires |d.relays| == 1 && d.relays[0].Idle?
    ensures Steps(d, [BeginFlush(0)]) == InFlush(d, 0)
  {
    BeginOfFlush(d);
    StepsLast(d, [], BeginFlush(0));
    assert [] + [BeginFlush(0)] == [BeginFlush(0)];
  }

  lemma PublishAfter(d: Desk, events: seq<Relay.Event>, sent: nat)
    requires 0 < sent <= |Pick(d.outbox, {})| && Steps(d, events) == InFlush(d, sent - 1)
    ensures Steps(d, events + [Publish(0)]) == InFlush(d, sent)
  {
    StepsLast(d, events, Publish(0));
    OnePublish(d, sent - 1);
  }

  lemma {:induction false} PublishesRun(d: Desk, sent: nat)
    requires |d.relays| == 1 && d.relays[0].Idle? && sent <= |Pick(d.outbox, {})|
    ensures Steps(d, [BeginFlush(0)] + Publishes(sent)) == InFlush(d, sent)
    decreases sent
  {
    if sent == 0 {
      BeginRun(d);
      assert [BeginFlush(0)] + Publishes(0) == [BeginFlush(0)];
    } else {
      PublishesRun(d, sent - 1);
      PublishAfter(d, [BeginFlush(0)] + Publishes(sent - 1), sent);
      OneMoreEvent(sent);
    }
  }

  /** A flush is a run of the machine: begin, publish, finish. */
  lemma {:induction false} FlushIsRun(d: Desk, sent: nat, marked: bool)
    requires |d.relays| == 1 && d.relays[0].Idle? && sent <= |Pick(d.outbox, {})|
    ensures Steps(d, [BeginFlush(0)] + Publishes(sent) + [Finish(0, marked)]) == Flush(d, sent, marked)
  {
    PublishesRun(d, sent);
    StepsLast(d, [BeginFlush(0)] + Publishes(sent), Finish(0, marked));
    FinishOfFlush(d, sent, marked);
  }

  /** A flush that read all its rows and took effect leaves the outbox that the draining law speaks of. */
  lemma CompleteFlush(d: Desk)
    requires |d.relays| == 1
    ensures Flush(d, |Pick(d.outbox, {})|, true).outbox == Flushed(d.outbox)
  {
    var batch := Pick(d.outbox, {});
    assert batch[..|batch|] == batch;
  }

  /** How the commit of a flush ends: refused, done, or done and reported as an error. */
  datatype CommitResult = Refused | Done | DoneUnreported

  /**
   * What one tick of the relay meets. `publishes` decides which Publish calls fail, `lost` whether a failed one
   * was delivered all the same, and `received` how many rows arrive before reading breaks off, which nobody
   * notices; opening the transaction, updating the rows and committing can fail too.
   */
  datatype Tick = Tick(begun: bool, received: nat, publishes: nat -> bool, lost: bool, updated: bool,
                       commit: CommitResult)

  /** Nothing fails. */
  ghost predicate Healthy(t: Tick) {
    && t.begun && t.updated && t.commit == Done && t.received >= BATCH_LIMIT
    && forall i: nat :: t.publishes(i)
  }

  /** How many rows a flush reads of the `pending` ones it picked. */
  function Read(t: Tick, pending: nat): nat {
    if !t.begun then 0 else if t.received < pending then t.received else pending
  }

  /** All of the first n publish calls succeed. */
  predicate Publishable(publishes: nat -> bool, n: nat) {
    forall i :: 0 <= i < n ==> publishes(i)
  }

  /** Of n rows those before the first failure are sent, and that one too if only its answer was lost. */
  predicate Sends(t: Tick, n: nat, sent: nat) {
    && (Publishable(t.publishes, n) ==> sent == n)
    && forall i :: 0 <= i < n && Publishable(t.publishes, i) && !t.publishes(i) ==>
         sent == if t.lost then i + 1 else i
  }

  lemma SendsUpTo(t: Tick, n: nat, i: nat)
    requires i < n && Publishable(t.publishes, i) && !t.publishes(i)
    ensures Sends(t, n, if t.lost then i + 1 else i) && !Publishable(t.publishes, n)
  {
  }

  ghost predicate AllHealthy(ticks: seq<Tick>, n: nat)
    requires n <= |ticks|
  {
    forall i :: 0 <= i < n ==> Healthy(ticks[i])
  }

  function OneBatchOff(n: nat): nat {
    if n <= BATCH_LIMIT then 0 else n - BATCH_LIMIT
  }

  class OutboxRelay {
    var outbox: Slots
    ghost var log: seq<nat>
    ghost var wasted: seq<nat>

    ghost function Contents(): Desk
      reads this
    {
      Desk(outbox, log, wasted, [Idle])
    }

    constructor (outbox: Slots)
      ensures Contents() == Desk(outbox, [], [], [Idle])
    {
      this.outbox, log, wasted := outbox, [], [];
    }

    /**
     * One flush publishes the rows it reads up to the first failure, marks them if there was none and the
     * transaction commits, and succeeds exactly if that is reported.
     */
    method FlushBatch(t: Tick) returns (ok: bool, ghost sent: nat, ghost marked: bool)
      modifies this
      ensures Sends(t, Read(t, |Pick(old(outbox), {})|), sent)
      ensures var n := Read(t, |Pick(old(outbox), {})|);
              marked <==> t.begun && Publishable(t.publishes, n) && (n == 0 || t.updated) && t.commit != Refused
      ensures ok <==> marked && t.commit == Done
      ensures sent <= |Pick(old(outbox), {})| && Contents() == Flush(old(Contents()), sent, marked)
    {
      ghost var before := log;
      var batch := Pick(outbox, {});
      sent := 0;
      if !t.begun {
        assert log + batch[..0] == log && wasted + batch[..0] == wasted;
        return false, 0, false;
      }
      var ids: seq<nat> := [];
      for i := 0 to Read(t, |batch|)
        invariant ids == batch[..i] && sent == i && Publishable(t.publishes, i)
        invariant log == before + batch[..i]
        invariant outbox == old(outbox) && wasted == old(wasted)
      {
        if !t.publishes(i) {
          SendsUpTo(t, Read(t, |batch|), i);
          sent := if t.lost then i + 1 else i;
          log := before + batch[..sent];
          wasted := wasted + batch[..sent];
          return false, sent, false;
        }
        assert batch[..i + 1] == batch[..i] + [batch[i]];
        assert before + batch[..i + 1] == log + [batch[i]];
        log := log + [batch[i]];
        ids := ids + [batch[i]];
        sent := sent + 1;
      }
      if (|ids| > 0 && !t.updated) || t.commit == Refused {
        wasted := wasted + batch[..sent];
        return false, sent, false;
      }
      outbox := Mark(outbox, ids);
      return t.commit == Done, sent, true;
    }

    /** One round of the relay's loop; an error is only logged. */
    method OnTick(t: Tick)
      modifies this
      ensures Healthy(t) ==> PendingCount(outbox) == OneBatchOff(PendingCount(old(outbox)))
    {
      ghost var d := Contents();
      var _, sent, marked := FlushBatch(t);
      if Healthy(t) {
        CompleteFlush(d);
        FlushTakesOneBatch(d.outbox);
      }
    }

    /** The relay's loop: k rounds in which nothing fails publish and mark 500 k pending rows, or all there are. */
    method Run(ticks: seq<Tick>)
      modifies this
      ensures AllHealthy(ticks, |ticks|) ==>
                var n := PendingCount(old(outbox));
                PendingCount(outbox) == if n <= BATCH_LIMIT * |ticks| then 0 else n - BATCH_LIMIT * |ticks|
    {
      ghost var healthy, n := AllHealthy(ticks, |ticks|), PendingCount(outbox);
      for i := 0 to |ticks|
        invariant healthy ==> PendingCount(outbox) == if n <= BATCH_LIMIT * i then 0 else n - BATCH_LIMIT * i
      {
        assert healthy ==> Healthy(ticks[i]);
        OnTick(ticks[i]);
      }
    }
  }
}
