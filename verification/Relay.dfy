/** The outbox relay: publishes pending rows in batches and marks them in the same transaction. */
module Relay {
  import opened Domain
  import opened Sums
  import opened Repository

  const BATCH_LIMIT: nat := 500

  /**
   * The outbox table by id. A transaction draws its id before it commits, so ids become visible out of
   * order; a slot is None while its transaction is open, and forever if that rolls back.
   */
  type Slots = seq<Option<OutboxRow>>

  predicate IsPending(slot: Option<OutboxRow>) {
    slot.Some? && !slot.value.published
  }

  predicate IsPublished(slot: Option<OutboxRow>) {
    slot.Some? && slot.value.published
  }

  /** A relay is idle, or holds the locks of a batch of which it has published the first `sent` rows. */
  datatype Tx = Idle | Busy(batch: seq<nat>, sent: nat)

  /**
   * `log` lists every publication, `wasted` the publications of flushes that failed afterwards;
   * both are kept for specification only. Rows are named by their id, their position in the outbox.
   */
  datatype Desk = Desk(outbox: Slots, log: seq<nat>, wasted: seq<nat>, relays: seq<Tx>)

  datatype Event =
    | Draw
    | Insert(slot: nat, row: OutboxRow)
    | BeginFlush(relay: nat)
    | Publish(relay: nat)
    | Finish(relay: nat, ok: bool)

  function Locked(relays: seq<Tx>): set<nat> {
    set r, i | 0 <= r < |relays| && relays[r].Busy? && 0 <= i < |relays[r].batch| :: relays[r].batch[i]
  }

  /** The pending rows that no transaction has locked, by id. */
  function Pending(outbox: Slots, locked: set<nat>): (rows: seq<nat>)
    ensures forall i :: 0 <= i < |rows| ==> rows[i] < |outbox| && IsPending(outbox[rows[i]]) && rows[i] !in locked
    ensures forall i, j :: 0 <= i < j < |rows| ==> rows[i] < rows[j]
    ensures forall row: nat :: row < |outbox| && IsPending(outbox[row]) && row !in locked ==> row in rows
  {
    if outbox == [] then []
    else
      var n := |outbox| - 1;
      var rest := Pending(outbox[..n], locked);
      if IsPending(outbox[n]) && n !in locked then rest + [n] else rest
  }

  function Pick(outbox: Slots, locked: set<nat>): seq<nat> {
    var rows := Pending(outbox, locked);
    if |rows| <= BATCH_LIMIT then rows else rows[..BATCH_LIMIT]
  }

  function Mark(outbox: Slots, batch: seq<nat>): (marked: Slots)
    ensures |marked| == |outbox|
    ensures forall i :: 0 <= i < |outbox| ==> marked[i].Some? == outbox[i].Some?
    ensures forall i :: 0 <= i < |outbox| && outbox[i].Some? ==> marked[i].value.event == outbox[i].value.event
    ensures forall i :: 0 <= i < |outbox| ==>
              (IsPublished(marked[i]) <==> IsPublished(outbox[i]) || (outbox[i].Some? && i in batch))
  {
    seq(|outbox|, i requires 0 <= i < |outbox| =>
      match outbox[i]
      case None => None
      case Some(r) => Some(OutboxRow(r.event, r.published || i in batch)))
  }

  /**
   * One atomic move; a move whose guard does not hold changes nothing. A flush marks the rows it has
   * published, which are fewer than it locked if reading them broke off unnoticed.
   */
  function Step(d: Desk, e: Event): Desk {
    match e
    case Draw => d.(outbox := d.outbox + [None])
    case Insert(slot, row) =>
      if slot < |d.outbox| && d.outbox[slot].None? then d.(outbox := d.outbox[slot := Some(row)]) else d
    case BeginFlush(r) =>
      if r < |d.relays| && d.relays[r].Idle?
      then d.(relays := d.relays[r := Busy(Pick(d.outbox, Locked(d.relays)), 0)])
      else d
    case Publish(r) =>
      if r < |d.relays| && d.relays[r].Busy? && d.relays[r].sent < |d.relays[r].batch|
      then d.(log := d.log + [d.relays[r].batch[d.relays[r].sent]],
              relays := d.relays[r := d.relays[r].(sent := d.relays[r].sent + 1)])
      else d
    case Finish(r, ok) =>
      if !(r < |d.relays| && d.relays[r].Busy? && d.relays[r].sent <= |d.relays[r].batch|) then d
      else if !ok
      then d.(wasted := d.wasted + d.relays[r].batch[..d.relays[r].sent], relays := d.relays[r := Idle])
      else d.(outbox := Mark(d.outbox, d.relays[r].batch[..d.relays[r].sent]), relays := d.relays[r := Idle])
  }

  function Steps(d: Desk, events: seq<Event>): Desk {
    if events == [] then d else Step(Steps(d, events[..|events| - 1]), events[|events| - 1])
  }

  lemma {:induction false} StepsLast(d: Desk, events: seq<Event>, e: Event)
    ensures Steps(d, events + [e]) == Step(Steps(d, events), e)
  {
    assert (events + [e])[..|events|] == events;
  }

  // ------------------------------------------------------------ any number of relays

  predicate ValidTx(outbox: Slots, tx: Tx) {
    tx.Busy? ==>
      && tx.sent <= |tx.batch| <= BATCH_LIMIT
      && (forall i :: 0 <= i < |tx.batch| ==> tx.batch[i] < |outbox| && IsPending(outbox[tx.batch[i]]))
      && (forall i, j :: 0 <= i < j < |tx.batch| ==> tx.batch[i] != tx.batch[j])
  }

  predicate DisjointTx(a: Tx, b: Tx) {
    a.Busy? && b.Busy? ==> forall row :: row in a.batch ==> row !in b.batch
  }

  function Sent(tx: Tx, row: nat): int {
    if tx.Busy? && tx.sent <= |tx.batch| && row in tx.batch[..tx.sent] then 1 else 0
  }

  function SentBy(relays: seq<Tx>, row: nat): (s: seq<int>)
    ensures |s| == |relays|
  {
    seq(|relays|, r requires 0 <= r < |relays| => Sent(relays[r], row))
  }

  function Published(d: Desk, row: nat): int {
    if row < |d.outbox| && IsPublished(d.outbox[row]) then 1 else 0
  }

  /** Every publication of a row is accounted for: by a failed flush, by a flush under way, or by its mark. */
  predicate Balanced(d: Desk, row: nat) {
    multiset(d.log)[row] == multiset(d.wasted)[row] + SumSeq(SentBy(d.relays, row)) + Published(d, row)
  }

  ghost predicate Inv(d: Desk) {
    && (forall r :: 0 <= r < |d.relays| ==> ValidTx(d.outbox, d.relays[r]))
    && (forall r, q :: 0 <= r < q < |d.relays| ==> DisjointTx(d.relays[r], d.relays[q]))
    && (forall row: nat :: Balanced(d, row))
  }

  /** Replacing one relay's transaction moves the sum by the difference. */
  lemma SentByUpdate(relays: seq<Tx>, r: nat, tx: Tx, row: nat)
    requires r < |relays|
    ensures SumSeq(SentBy(relays[r := tx], row)) == SumSeq(SentBy(relays, row)) - Sent(relays[r], row) + Sent(tx, row)
  {
    assert SentBy(relays[r := tx], row) == SentBy(relays, row)[r := Sent(tx, row)];
    SumSeqUpdate(SentBy(relays, row), r, Sent(tx, row));
  }

  lemma BeginKeepsInv(d: Desk, r: nat)
    requires Inv(d) && r < |d.relays| && d.relays[r].Idle?
    ensures Inv(Step(d, BeginFlush(r)))
  {
    var tx := Busy(Pick(d.outbox, Locked(d.relays)), 0);
    var d' := Step(d, BeginFlush(r));
    forall q | 0 <= q < |d.relays| && q != r
      ensures DisjointTx(tx, d.relays[q]) && DisjointTx(d.relays[q], tx)
    {
      if d.relays[q].Busy? {
        forall row | row in d.relays[q].batch
          ensures row in Locked(d.relays)
        {
          var i :| 0 <= i < |d.relays[q].batch| && d.relays[q].batch[i] == row;
        }
      }
    }
    forall row: nat
      ensures Balanced(d', row)
    {
      assert Balanced(d, row);
      SentByUpdate(d.relays, r, tx, row);
    }
  }

  lemma PublishKeepsInv(d: Desk, r: nat)
    requires Inv(d) && r < |d.relays| && d.relays[r].Busy? && d.relays[r].sent < |d.relays[r].batch|
    ensures Inv(Step(d, Publish(r)))
  {
    var tx := d.relays[r];
    assert ValidTx(d.outbox, tx);
    var tx' := tx.(sent := tx.sent + 1);
    var d' := Step(d, Publish(r));
    assert tx.batch[..tx.sent + 1] == tx.batch[..tx.sent] + [tx.batch[tx.sent]];
    forall row: nat
      ensures Balanced(d', row)
    {
      assert Balanced(d, row);
      SentByUpdate(d.relays, r, tx', row);
    }
  }

  lemma FinishKeepsInv(d: Desk, r: nat, ok: bool)
    requires Inv(d) && r < |d.relays| && d.relays[r].Busy?
    ensures Inv(Step(d, Finish(r, ok)))
  {
    var tx := d.relays[r];
    assert ValidTx(d.outbox, tx);
    var d' := Step(d, Finish(r, ok));
    assert forall row :: row in tx.batch[..tx.sent] ==> row in tx.batch;
    forall q | 0 <= q < |d'.relays|
      ensures ValidTx(d'.outbox, d'.relays[q])
    {
      assert ValidTx(d.outbox, d.relays[q]);
      assert q != r ==> DisjointTx(d.relays[q], tx) || DisjointTx(tx, d.relays[q]);
    }
    forall row: nat
      ensures Balanced(d', row)
    {
      assert Balanced(d, row);
      SentByUpdate(d.relays, r, Idle, row);
      CountDistinct(tx.batch[..tx.sent], row);
    }
  }

  /** New rows are not published yet. */
  predicate FreshWrite(e: Event) {
    e.Insert? ==> !e.row.published
  }

  lemma WriteKeepsInv(d: Desk, e: Event)
    requires Inv(d) && FreshWrite(e) && (e.Draw? || e.Insert?)
    ensures Inv(Step(d, e))
  {
    var d' := Step(d, e);
    forall r | 0 <= r < |d.relays|
      ensures ValidTx(d'.outbox, d.relays[r])
    {
      assert ValidTx(d.outbox, d.relays[r]);
    }
    forall row: nat
      ensures Balanced(d', row)
    {
      assert Balanced(d, row);
    }
  }

  /** Every move of any relay, successful or not, and every write, keeps the books balanced. */
  lemma StepKeepsInv(d: Desk, e: Event)
    requires Inv(d) && FreshWrite(e)
    ensures Inv(Step(d, e))
  {
    match e
    case Draw => WriteKeepsInv(d, e);
    case Insert(_, _) => WriteKeepsInv(d, e);
    case BeginFlush(r) =>
      if r < |d.relays| && d.relays[r].Idle? {
        BeginKeepsInv(d, r);
      }
    case Publish(r) =>
      if r < |d.relays| && d.relays[r].Busy? && d.relays[r].sent < |d.relays[r].batch| {
        PublishKeepsInv(d, r);
      }
    case Finish(r, ok) =>
      if r < |d.relays| && d.relays[r].Busy? {
        FinishKeepsInv(d, r, ok);
      }
  }

  predicate FreshWrites(events: seq<Event>) {
    forall i :: 0 <= i < |events| ==> FreshWrite(events[i])
  }

  /** A desk nobody has worked at: nothing published, no transaction open. */
  predicate Opening(d: Desk) {
    && d.log == [] && d.wasted == []
    && (forall r :: 0 <= r < |d.relays| ==> d.relays[r].Idle?)
    && (forall i :: 0 <= i < |d.outbox| ==> !IsPublished(d.outbox[i]))
  }

  lemma {:induction false} StepsKeepInv(d: Desk, events: seq<Event>)
    requires Opening(d) && FreshWrites(events)
    ensures Inv(Steps(d, events))
    decreases |events|
  {
    if events == [] {
      forall row: nat
        ensures Balanced(d, row)
      {
        SumSeqZero(SentBy(d.relays, row));
      }
    } else {
      StepsKeepInv(d, events[..|events| - 1]);
      StepKeepsInv(Steps(d, events[..|events| - 1]), events[|events| - 1]);
    }
  }

  lemma SentIsInBatch(tx: Tx, row: nat)
    ensures Sent(tx, row) == 1 ==> tx.Busy? && row in tx.batch
  {
    if Sent(tx, row) == 1 {
      var i :| 0 <= i < tx.sent && tx.batch[..tx.sent][i] == row;
      assert tx.batch[i] == row;
    }
  }

  /** Disjoint transactions hold a row at most once between them. */
  lemma {:induction false} SentAtMostOnce(relays: seq<Tx>, row: nat)
    requires forall r, q :: 0 <= r < q < |relays| ==> DisjointTx(relays[r], relays[q])
    ensures 0 <= SumSeq(SentBy(relays, row)) <= 1
    ensures SumSeq(SentBy(relays, row)) == 1 ==> exists r :: 0 <= r < |relays| && Sent(relays[r], row) == 1
    decreases |relays|
  {
    if relays != [] {
      var n := |relays| - 1;
      SentAtMostOnce(relays[..n], row);
      assert SentBy(relays, row)[..n] == SentBy(relays[..n], row);
      if Sent(relays[n], row) == 1 {
        forall r | 0 <= r < n
          ensures SentBy(relays[..n], row)[r] == 0
        {
          assert DisjointTx(relays[r], relays[n]) && relays[..n][r] == relays[r];
          SentIsInBatch(relays[r], row);
          SentIsInBatch(relays[n], row);
        }
        SumSeqZero(SentBy(relays[..n], row));
      } else if SumSeq(SentBy(relays[..n], row)) == 1 {
        var r :| 0 <= r < n && Sent(relays[..n][r], row) == 1;
        assert Sent(relays[r], row) == 1;
      }
    }
  }

  /**
   * At every moment, with any number of relays and failures anywhere: a row marked PUBLISHED was
   * published at least once, no row is published more than once plus the number of failed flushes
   * that reached it, and the batches being worked on are disjoint.
   */
  lemma {:induction false} PublishedAtLeastOnceAtMostRetried(d: Desk, events: seq<Event>, row: nat)
    requires Opening(d) && FreshWrites(events)
    ensures var e := Steps(d, events);
            && (row < |e.outbox| && IsPublished(e.outbox[row]) ==> row in e.log)
            && multiset(e.log)[row] <= 1 + multiset(e.wasted)[row]
            && (forall r, q :: 0 <= r < q < |e.relays| ==> DisjointTx(e.relays[r], e.relays[q]))
  {
    StepsKeepInv(d, events);
    var e := Steps(d, events);
    assert Balanced(e, row);
    SentAtMostOnce(e.relays, row);
    if SumSeq(SentBy(e.relays, row)) == 1 {
      var r :| 0 <= r < |e.relays| && Sent(e.relays[r], row) == 1;
      assert ValidTx(e.outbox, e.relays[r]);
    }
    if Published(e, row) == 1 {
      assert row in multiset(e.log);
    }
  }

  // ------------------------------------------------------------ draining

  /** The outbox after one successful flush with nobody else at work. */
  function Flushed(outbox: Slots): Slots {
    Mark(outbox, Pick(outbox, {}))
  }

  function FlushedTimes(outbox: Slots, k: nat): Slots {
    if k == 0 then outbox else Flushed(FlushedTimes(outbox, k - 1))
  }

  function AsSet(s: seq<nat>): set<nat> {
    set x | x in s
  }

  function PendingCount(outbox: Slots): nat {
    |Pending(outbox, {})|
  }

  lemma {:induction false} SetSize(s: seq<nat>)
    requires forall i, j :: 0 <= i < j < |s| ==> s[i] != s[j]
    ensures |AsSet(s)| == |s|
    decreases |s|
  {
    if s != [] {
      var n := |s| - 1;
      SetSize(s[..n]);
      assert s[n] !in AsSet(s[..n]);
      assert AsSet(s) == AsSet(s[..n]) + {s[n]};
    }
  }

  lemma FlushTakesOneBatch(outbox: Slots)
    ensures PendingCount(Flushed(outbox))
         == if PendingCount(outbox) <= BATCH_LIMIT then 0 else PendingCount(outbox) - BATCH_LIMIT
  {
    var rows, batch, left := Pending(outbox, {}), Pick(outbox, {}), Pending(Flushed(outbox), {});
    SetSize(rows);
    SetSize(batch);
    SetSize(left);
    assert AsSet(batch) <= AsSet(rows);
    FlushLeaves(outbox);
    assert |AsSet(rows) - AsSet(batch)| == |AsSet(rows)| - |AsSet(batch)|;
  }

  lemma {:induction false} FlushLeaves(outbox: Slots)
    ensures AsSet(Pending(Flushed(outbox), {})) == AsSet(Pending(outbox, {})) - AsSet(Pick(outbox, {}))
  {
    forall row: nat
      ensures row in Pending(Flushed(outbox), {}) <==> row in Pending(outbox, {}) && row !in Pick(outbox, {})
    {
    }
  }

  lemma {:induction false} FlushesTakeBatches(outbox: Slots, k: nat)
    ensures var n := PendingCount(outbox);
            PendingCount(FlushedTimes(outbox, k)) == if n <= BATCH_LIMIT * k then 0 else n - BATCH_LIMIT * k
    decreases k
  {
    if k > 0 {
      FlushesTakeBatches(outbox, k - 1);
      FlushTakesOneBatch(FlushedTimes(outbox, k - 1));
      OneBatchLess(PendingCount(outbox), k, PendingCount(FlushedTimes(outbox, k - 1)),
                   PendingCount(FlushedTimes(outbox, k)));
    }
  }

  lemma OneBatchLess(n: nat, k: nat, before: nat, after: nat)
    requires k > 0
    requires before == if n <= BATCH_LIMIT * (k - 1) then 0 else n - BATCH_LIMIT * (k - 1)
    requires after == if before <= BATCH_LIMIT then 0 else before - BATCH_LIMIT
    ensures after == if n <= BATCH_LIMIT * k then 0 else n - BATCH_LIMIT * k
  {
  }

  lemma CeilAtMost(n: nat, k: nat)
    ensures n <= BATCH_LIMIT * k <==> (n + BATCH_LIMIT - 1) / BATCH_LIMIT <= k
  {
    var q, r := (n + BATCH_LIMIT - 1) / BATCH_LIMIT, (n + BATCH_LIMIT - 1) % BATCH_LIMIT;
    assert n + BATCH_LIMIT - 1 == BATCH_LIMIT * q + r;
  }

  /** With no new writes, N pending rows are drained by k successful flushes exactly when k >= ceil(N / 500). */
  lemma DrainsInCeilFlushes(outbox: Slots, k: nat)
    ensures var n, left := PendingCount(outbox), PendingCount(FlushedTimes(outbox, k));
            && left == (if n <= BATCH_LIMIT * k then 0 else n - BATCH_LIMIT * k)
            && (left == 0 <==> (n + BATCH_LIMIT - 1) / BATCH_LIMIT <= k)
  {
    FlushesTakeBatches(outbox, k);
    CeilAtMost(PendingCount(outbox), k);
  }
}
