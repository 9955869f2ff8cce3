/** One relay composed with the repository: the order in which a payment's events are first published. */
module Publication {
  import opened Domain
  import opened Repository
  import opened Relay

  /** The first publication of every row, in publication order. */
  function First(log: seq<nat>): seq<nat> {
    if log == [] then []
    else
      var n := |log| - 1;
      if log[n] in log[..n] then First(log[..n]) else First(log[..n]) + [log[n]]
  }

  lemma {:induction false} FirstAppend(log: seq<nat>, row: nat)
    ensures First(log + [row]) == if row in log then First(log) else First(log) + [row]
  {
    assert (log + [row])[..|log|] == log;
  }

  lemma {:induction false} FirstHasAll(log: seq<nat>, row: nat)
    ensures row in First(log) <==> row in log
    decreases |log|
  {
    if log != [] {
      var n := |log| - 1;
      assert log == log[..n] + [log[n]];
      FirstHasAll(log[..n], row);
    }
  }

  // ------------------------------------------------------------ the rows of one payment

  predicate IsOwn(outbox: Slots, row: nat, id: PaymentId) {
    row < |outbox| && outbox[row].Some? && outbox[row].value.event.payment == id
  }

  /** The rows of payment `id` among `rows`, in the same order. */
  function OwnIn(outbox: Slots, rows: seq<nat>, id: PaymentId): seq<nat> {
    if rows == [] then []
    else
      var n := |rows| - 1;
      var rest := OwnIn(outbox, rows[..n], id);
      if IsOwn(outbox, rows[n], id) then rest + [rows[n]] else rest
  }

  lemma {:induction false} OwnInAppend(outbox: Slots, rows: seq<nat>, row: nat, id: PaymentId)
    ensures OwnIn(outbox, rows + [row], id)
         == if IsOwn(outbox, row, id) then OwnIn(outbox, rows, id) + [row] else OwnIn(outbox, rows, id)
  {
    assert (rows + [row])[..|rows|] == rows;
  }

  /** What does not change the rows at hand does not change which of them are the payment's. */
  lemma {:induction false} OwnInSame(outbox: Slots, outbox': Slots, rows: seq<nat>, id: PaymentId)
    requires forall i :: 0 <= i < |rows| ==> (IsOwn(outbox', rows[i], id) <==> IsOwn(outbox, rows[i], id))
    ensures OwnIn(outbox', rows, id) == OwnIn(outbox, rows, id)
    decreases |rows|
  {
    if rows != [] {
      OwnInSame(outbox, outbox', rows[..|rows| - 1], id);
    }
  }

  lemma {:induction false} OwnInElements(outbox: Slots, rows: seq<nat>, id: PaymentId, row: nat)
    ensures row in OwnIn(outbox, rows, id) <==> row in rows && IsOwn(outbox, row, id)
    decreases |rows|
  {
    if rows != [] {
      var n := |rows| - 1;
      assert rows == rows[..n] + [rows[n]];
      OwnInElements(outbox, rows[..n], id, row);
    }
  }

  lemma {:induction false} OwnInPrefix(outbox: Slots, rows: seq<nat>, k: nat, id: PaymentId)
    requires k <= |rows|
    ensures OwnIn(outbox, rows[..k], id) <= OwnIn(outbox, rows, id)
    decreases |rows|
  {
    var n := |rows| - 1;
    if k <= n {
      assert rows[..n][..k] == rows[..k];
      OwnInPrefix(outbox, rows[..n], k, id);
    } else {
      assert rows[..k] == rows;
    }
  }

  predicate Ascending(s: seq<nat>) {
    forall i, j :: 0 <= i < j < |s| ==> s[i] < s[j]
  }

  lemma {:induction false} OwnInAscending(outbox: Slots, rows: seq<nat>, id: PaymentId)
    requires Ascending(rows)
    ensures Ascending(OwnIn(outbox, rows, id))
    decreases |rows|
  {
    if rows != [] {
      var n := |rows| - 1;
      var rest := OwnIn(outbox, rows[..n], id);
      OwnInAscending(outbox, rows[..n], id);
      forall i | 0 <= i < |rest|
        ensures rest[i] < rows[n]
      {
        OwnInElements(outbox, rows[..n], id, rest[i]);
        var j :| 0 <= j < n && rows[..n][j] == rest[i];
        assert rows[j] < rows[n];
      }
    }
  }

  lemma SomeElement(s: seq<nat>)
    ensures s == [] || exists x: nat :: x in s
  {
    if s != [] {
      assert s[0] in s;
    }
  }

  /** Two ascending lists of the same numbers are the same. */
  lemma {:induction false} AscendingUnique(a: seq<nat>, b: seq<nat>)
    requires Ascending(a) && Ascending(b)
    requires forall x: nat :: x in a <==> x in b
    ensures a == b
    decreases |a|
  {
    if a == [] {
      SomeElement(b);
    } else {
      var n := |a| - 1;
      assert a[n] in a;
      assert b != [];
      var m := |b| - 1;
      assert b[m] in b && b[m] in a;
      assert a[n] == b[m];
      forall x: nat
        ensures x in a[..n] <==> x in b[..m]
      {
        LastIsLargest(a, x);
        LastIsLargest(b, x);
      }
      AscendingUnique(a[..n], b[..m]);
      assert a == a[..n] + [a[n]] && b == b[..m] + [b[m]];
    }
  }

  lemma LastIsLargest(a: seq<nat>, x: nat)
    requires Ascending(a) && a != []
    ensures x in a[..|a| - 1] <==> x in a && x != a[|a| - 1]
  {
    var n := |a| - 1;
    if x in a && x != a[n] {
      var i :| 0 <= i < |a| && a[i] == x;
      assert a[..n][i] == x;
    }
  }

  // ------------------------------------------------------------ the order of one payment

  /** All these rows are visible, so no later commit adds to them. */
  predicate Visible(outbox: Slots, rows: seq<nat>) {
    forall i :: 0 <= i < |rows| ==> rows[i] < |outbox| && outbox[rows[i]].Some?
  }

  /** A flush under way holds the payment's next rows, after the m marked ones, and has published up to h. */
  ghost predicate BatchInOrder(outbox: Slots, tx: Tx, own: seq<nat>, id: PaymentId, m: nat, h: nat) {
    tx.Busy? ==>
      && tx.sent <= |tx.batch| && Visible(outbox, tx.batch)
      && m <= |own| && OwnIn(outbox, tx.batch, id) <= own[m..]
      && m + |OwnIn(outbox, tx.batch[..tx.sent], id)| <= h
  }

  /**
   * With one relay, seen from one payment whose rows are `own`: the first m of them are marked, and the
   * first h have been published, first in that order. About other payments nothing is said.
   */
  ghost predicate OwnOrder(d: Desk, own: seq<nat>, id: PaymentId, m: nat, h: nat) {
    && |d.relays| == 1
    && MarkedInOrder(d.outbox, own, id, m)
    && LogInOrder(d.outbox, d.log, own, id, m, h)
    && BatchInOrder(d.outbox, d.relays[0], own, id, m, h)
  }

  ghost predicate MarkedInOrder(outbox: Slots, own: seq<nat>, id: PaymentId, m: nat) {
    && m <= |own| && Ascending(own)
    && (forall row: nat :: row in own <==> IsOwn(outbox, row, id))
    && (forall i :: 0 <= i < |own| ==> own[i] < |outbox| && (IsPublished(outbox[own[i]]) <==> i < m))
  }

  ghost predicate LogInOrder(outbox: Slots, log: seq<nat>, own: seq<nat>, id: PaymentId, m: nat, h: nat) {
    && m <= h <= |own|
    && Visible(outbox, log)
    && OwnIn(outbox, First(log), id) == own[..h]
  }

  /** The payment's pending rows are those after the marked ones. */
  lemma {:induction false} PendingOwn(outbox: Slots, own: seq<nat>, id: PaymentId, m: nat)
    requires MarkedInOrder(outbox, own, id, m)
    ensures OwnIn(outbox, Pending(outbox, {}), id) == own[m..]
  {
    var rows := Pending(outbox, {});
    OwnInAscending(outbox, rows, id);
    forall x: nat
      ensures x in OwnIn(outbox, rows, id) <==> x in own[m..]
    {
      OwnInElements(outbox, rows, id, x);
      if x in own[m..] {
        var i :| 0 <= i < |own| - m && own[m..][i] == x;
        assert own[m + i] == x && x in own;
      }
      if x in OwnIn(outbox, rows, id) {
        assert x in own;
        var i :| 0 <= i < |own| && own[i] == x;
        assert own[m..][i - m] == x;
      }
    }
    AscendingUnique(OwnIn(outbox, rows, id), own[m..]);
  }

  lemma {:induction false} PickInOrder(outbox: Slots, own: seq<nat>, id: PaymentId, m: nat, h: nat)
    requires MarkedInOrder(outbox, own, id, m) && m <= h
    ensures BatchInOrder(outbox, Busy(Pick(outbox, {}), 0), own, id, m, h)
  {
    var rows, batch := Pending(outbox, {}), Pick(outbox, {});
    PendingOwn(outbox, own, id, m);
    OwnInPrefix(outbox, rows, |batch|, id);
    assert batch == rows[..|batch|];
    assert batch[..0] == [];
  }

  lemma BeginKeepsOrder(d: Desk, own: seq<nat>, id: PaymentId, m: nat, h: nat)
    requires OwnOrder(d, own, id, m, h) && d.relays[0].Idle?
    ensures OwnOrder(Step(d, BeginFlush(0)), own, id, m, h)
  {
    assert Locked(d.relays) == {};
    PickInOrder(d.outbox, own, id, m, h);
  }

  /** The row that is published next, if it is the payment's, is its first unpublished one or a repeat. */
  lemma {:induction false} NextOwn(outbox: Slots, tx: Tx, own: seq<nat>, id: PaymentId, m: nat, h: nat)
    requires BatchInOrder(outbox, tx, own, id, m, h) && tx.Busy? && tx.sent < |tx.batch|
    ensures var row, done := tx.batch[tx.sent], |OwnIn(outbox, tx.batch[..tx.sent], id)|;
            && |OwnIn(outbox, tx.batch[..tx.sent + 1], id)| == (if IsOwn(outbox, row, id) then done + 1 else done)
            && (IsOwn(outbox, row, id) ==> m + done < |own| && row == own[m + done])
  {
    var row, before := tx.batch[tx.sent], OwnIn(outbox, tx.batch[..tx.sent], id);
    assert tx.batch[..tx.sent + 1] == tx.batch[..tx.sent] + [row];
    OwnInAppend(outbox, tx.batch[..tx.sent], row, id);
    OwnInPrefix(outbox, tx.batch, tx.sent + 1, id);
    if IsOwn(outbox, row, id) {
      var all := OwnIn(outbox, tx.batch, id);
      assert before + [row] <= all && all <= own[m..];
      assert all[|before|] == row && own[m..][|before|] == row;
    }
  }

  /** One of the payment's rows has been published if and only if it is among the first h. */
  lemma PublishedIff(outbox: Slots, log: seq<nat>, own: seq<nat>, id: PaymentId, m: nat, h: nat, i: nat)
    requires MarkedInOrder(outbox, own, id, m) && LogInOrder(outbox, log, own, id, m, h) && i < |own|
    ensures own[i] in log <==> i < h
  {
    assert own[i] in own;
    FirstHasAll(log, own[i]);
    OwnInElements(outbox, First(log), id, own[i]);
    if own[i] in own[..h] {
      var j :| 0 <= j < h && own[..h][j] == own[i];
    }
    if i < h {
      assert own[..h][i] == own[i];
    }
  }

  /** Publishing one row: it moves the payment on exactly if it is its first unpublished one. */
  lemma {:induction false} PublishInOrder(outbox: Slots, log: seq<nat>, row: nat, own: seq<nat>, id: PaymentId,
                                          m: nat, h: nat, i: nat)
    requires MarkedInOrder(outbox, own, id, m) && LogInOrder(outbox, log, own, id, m, h)
    requires row < |outbox| && outbox[row].Some?
    requires IsOwn(outbox, row, id) ==> i < |own| && i <= h && row == own[i]
    ensures LogInOrder(outbox, log + [row], own, id, m, if IsOwn(outbox, row, id) && i == h then h + 1 else h)
  {
    if IsOwn(outbox, row, id) {
      PublishedIff(outbox, log, own, id, m, h, i);
      if i == h {
        assert own[..h + 1] == own[..h] + [own[h]];
      }
    }
    FirstOwnAppend(outbox, log, row, id);
  }

  /** What one more publication adds to the first publications of a payment. */
  lemma {:induction false} FirstOwnAppend(outbox: Slots, log: seq<nat>, row: nat, id: PaymentId)
    ensures var before := OwnIn(outbox, First(log), id);
            OwnIn(outbox, First(log + [row]), id)
            == if row !in log && IsOwn(outbox, row, id) then before + [row] else before
  {
    FirstAppend(log, row);
    OwnInAppend(outbox, First(log), row, id);
  }

  lemma PublishKeepsOrder(d: Desk, own: seq<nat>, id: PaymentId, m: nat, h: nat) returns (h': nat)
    requires OwnOrder(d, own, id, m, h) && d.relays[0].Busy? && d.relays[0].sent < |d.relays[0].batch|
    ensures OwnOrder(Step(d, Publish(0)), own, id, m, h')
  {
    var tx := d.relays[0];
    var row, next := tx.batch[tx.sent], m + |OwnIn(d.outbox, tx.batch[..tx.sent], id)|;
    h' := if IsOwn(d.outbox, row, id) && next == h then h + 1 else h;
    NextOwn(d.outbox, tx, own, id, m, h);
    PublishInOrder(d.outbox, d.log, row, own, id, m, h, next);
    assert BatchInOrder(d.outbox, tx.(sent := tx.sent + 1), own, id, m, h');
  }

  lemma {:induction false} MarkedIff(d: Desk, own: seq<nat>, id: PaymentId, m: nat, h: nat, i: nat)
    requires OwnOrder(d, own, id, m, h) && d.relays[0].Busy? && i < |own|
    ensures var tx := d.relays[0];
            var done := |OwnIn(d.outbox, tx.batch[..tx.sent], id)|;
            own[i] in tx.batch[..tx.sent] <==> m <= i < m + done
  {
    var tx := d.relays[0];
    var mine := OwnIn(d.outbox, tx.batch[..tx.sent], id);
    assert own[i] in own;
    OwnInElements(d.outbox, tx.batch[..tx.sent], id, own[i]);
    OwnInPrefix(d.outbox, tx.batch, tx.sent, id);
    assert mine <= own[m..];
    if own[i] in mine {
      var j :| 0 <= j < |mine| && mine[j] == own[i];
      assert own[m..][j] == own[m + j];
    }
    if m <= i < m + |mine| {
      assert mine[i - m] == own[m..][i - m] == own[i];
    }
  }

  lemma FinishKeepsOrder(d: Desk, own: seq<nat>, id: PaymentId, m: nat, h: nat) returns (m': nat)
    requires OwnOrder(d, own, id, m, h) && d.relays[0].Busy?
    ensures OwnOrder(Step(d, Finish(0, true)), own, id, m', h)
  {
    var tx := d.relays[0];
    var d' := Step(d, Finish(0, true));
    m' := m + |OwnIn(d.outbox, tx.batch[..tx.sent], id)|;
    forall i | 0 <= i < |own|
      ensures IsPublished(d'.outbox[own[i]]) <==> i < m'
    {
      assert own[i] in own;
      MarkedIff(d, own, id, m, h, i);
    }
    OwnInSame(d.outbox, d'.outbox, First(d.log), id);
  }

  /** Every move of the one relay keeps the order of the payment. */
  lemma RelayKeepsOrder(d: Desk, e: Relay.Event, own: seq<nat>, id: PaymentId, m: nat, h: nat)
    returns (m': nat, h': nat)
    requires OwnOrder(d, own, id, m, h) && !e.Draw? && !e.Insert?
    ensures OwnOrder(Step(d, e), own, id, m', h')
  {
    m', h' := m, h;
    var tx := d.relays[0];
    match e
    case BeginFlush(r) =>
      if r == 0 && tx.Idle? {
        BeginKeepsOrder(d, own, id, m, h);
      }
    case Publish(r) =>
      if r == 0 && tx.Busy? && tx.sent < |tx.batch| {
        h' := PublishKeepsOrder(d, own, id, m, h);
      }
    case Finish(r, ok) =>
      if r == 0 && tx.Busy? && ok {
        m' := FinishKeepsOrder(d, own, id, m, h);
      }
  }

  /** The outbox changes only where nothing has been published or locked. */
  lemma OutboxKeepsOrder(d: Desk, outbox: Slots, own: seq<nat>, own': seq<nat>, id: PaymentId, m: nat, h: nat)
    requires OwnOrder(d, own, id, m, h) && own <= own' && Ascending(own') && |d.outbox| <= |outbox|
    requires forall i :: 0 <= i < |d.outbox| && d.outbox[i].Some? ==> outbox[i] == d.outbox[i]
    requires forall row: nat :: row in own' <==> IsOwn(outbox, row, id)
    requires forall i :: |own| <= i < |own'| ==> own'[i] < |outbox| && !IsPublished(outbox[own'[i]])
    ensures OwnOrder(d.(outbox := outbox), own', id, m, h)
  {
    var tx := d.relays[0];
    forall i | 0 <= i < |own|
      ensures outbox[own[i]] == d.outbox[own[i]]
    {
      assert own[i] in own;
    }
    assert forall i :: 0 <= i < |First(d.log)| ==> First(d.log)[i] in d.log by {
      forall i | 0 <= i < |First(d.log)| {
        FirstHasAll(d.log, First(d.log)[i]);
      }
    }
    OwnInSame(d.outbox, outbox, First(d.log), id);
    assert own'[..h] == own[..h];
    if tx.Busy? {
      OwnInSame(d.outbox, outbox, tx.batch, id);
      OwnInSame(d.outbox, outbox, tx.batch[..tx.sent], id);
      assert own[m..] <= own'[m..];
    }
  }

  // ------------------------------------------------------------ repository and relay together

  /**
   * `open` gives the outbox id that the open transaction of a payment has drawn; the transactions of one
   * payment come one after the other, those of different payments overlap in any way. `ids` lists the
   * ids of the committed events in the order of their commits, which is the order of `tables.outbox`.
   */
  datatype Switch = Switch(tables: Tables, desk: Desk, open: map<PaymentId, nat>, ids: seq<nat>)

  datatype Move = DrawId(id: PaymentId) | Transaction(change: Change, healthy: bool) | Relaying(event: Relay.Event)

  /** The change is committed with its event. */
  predicate Commits(s: Switch, c: Change, healthy: bool) {
    healthy && Accepts(s.tables, c) && EventOf(c).Some? && c.Target() in s.open
  }

  function MoveOn(s: Switch, move: Move): Switch {
    match move
    case DrawId(id) =>
      if id in s.open then s
      else s.(desk := Step(s.desk, Draw), open := s.open[id := |s.desk.outbox|])
    case Transaction(c, healthy) =>
      if EventOf(c).None? then s.(tables := Transact(s.tables, c, healthy))
      else if Commits(s, c, healthy) then
        var slot := s.open[c.Target()];
        Switch(Transact(s.tables, c, healthy), Step(s.desk, Insert(slot, OutboxRow(EventOf(c).value, false))),
               s.open - {c.Target()}, s.ids + [slot])
      else s.(open := s.open - {c.Target()})
    case Relaying(e) => if e.Draw? || e.Insert? then s else s.(desk := Step(s.desk, e))
  }

  function MoveAll(s: Switch, moves: seq<Move>): Switch {
    if moves == [] then s else MoveOn(MoveAll(s, moves[..|moves| - 1]), moves[|moves| - 1])
  }

  const START: Switch := Switch(Tables(map[], [], map[]), Desk([], [], [], [Idle]), map[], [])

  /** The ids of one payment's committed events, in commit order. */
  function IdsOf(rows: seq<OutboxRow>, ids: seq<nat>, id: PaymentId): seq<nat>
    requires |ids| == |rows|
  {
    if rows == [] then []
    else
      var n := |rows| - 1;
      var rest := IdsOf(rows[..n], ids[..n], id);
      if rows[n].event.payment == id then rest + [ids[n]] else rest
  }

  /** Every committed event is visible under its id. */
  predicate Stored(s: Switch) {
    && |s.ids| == |s.tables.outbox|
    && forall i :: 0 <= i < |s.ids| ==>
         && s.ids[i] < |s.desk.outbox| && s.desk.outbox[s.ids[i]].Some?
         && s.desk.outbox[s.ids[i]].value.event == s.tables.outbox[i].event
  }

  /** Drawn ids are not visible yet, and different transactions drew different ones. */
  predicate Drawn(s: Switch) {
    && (forall p :: p in s.open ==> s.open[p] < |s.desk.outbox| && s.desk.outbox[s.open[p]].None?)
    && (forall p, q :: p in s.open && q in s.open && p != q ==> s.open[p] != s.open[q])
  }

  ghost predicate Ordered(s: Switch, id: PaymentId)
    requires |s.ids| == |s.tables.outbox|
  {
    var own := IdsOf(s.tables.outbox, s.ids, id);
    && (id in s.open ==> forall i :: 0 <= i < |own| ==> own[i] < s.open[id])
    && SomeOrder(s.desk, own, id)
  }

  ghost predicate SomeOrder(d: Desk, own: seq<nat>, id: PaymentId) {
    exists m: nat, h: nat :: OwnOrder(d, own, id, m, h)
  }

  ghost predicate Coupled(s: Switch, id: PaymentId) {
    s.tables.Valid() && Announced(s.tables, id) && Stored(s) && Drawn(s) && Ordered(s, id)
  }

  predicate MoveAnnounceable(move: Move, id: PaymentId) {
    move.Transaction? && move.change.Target() == id ==> Announceable(move.change)
  }

  lemma {:induction false} IdsOfAppend(rows: seq<OutboxRow>, ids: seq<nat>, row: OutboxRow, slot: nat, id: PaymentId)
    requires |ids| == |rows|
    ensures IdsOf(rows + [row], ids + [slot], id)
         == if row.event.payment == id then IdsOf(rows, ids, id) + [slot] else IdsOf(rows, ids, id)
  {
    assert (rows + [row])[..|rows|] == rows && (ids + [slot])[..|ids|] == ids;
  }

  lemma {:induction false} DrawKeepsCoupled(s: Switch, p: PaymentId, id: PaymentId)
    requires Coupled(s, id) && p !in s.open
    ensures Coupled(MoveOn(s, DrawId(p)), id)
  {
    var own := IdsOf(s.tables.outbox, s.ids, id);
    var m: nat, h: nat :| OwnOrder(s.desk, own, id, m, h);
    OutboxKeepsOrder(s.desk, s.desk.outbox + [None], own, own, id, m, h);
  }

  lemma {:induction false} RelayKeepsCoupled(s: Switch, e: Relay.Event, id: PaymentId)
    requires Coupled(s, id) && !e.Draw? && !e.Insert?
    ensures Coupled(MoveOn(s, Relaying(e)), id)
  {
    var own := IdsOf(s.tables.outbox, s.ids, id);
    var m: nat, h: nat :| OwnOrder(s.desk, own, id, m, h);
    var m', h' := RelayKeepsOrder(s.desk, e, own, id, m, h);
    assert OwnOrder(Step(s.desk, e), own, id, m', h');
  }

  /** A commit makes the drawn id visible; if it is the payment's own, it is its largest so far. */
  lemma {:induction false} InsertKeepsOrdered(s: Switch, slot: nat, e: Repository.Event, id: PaymentId)
    requires |s.ids| == |s.tables.outbox| && Drawn(s) && Ordered(s, id)
    requires e.payment in s.open && s.open[e.payment] == slot
    ensures var own := IdsOf(s.tables.outbox, s.ids, id);
            SomeOrder(Step(s.desk, Insert(slot, OutboxRow(e, false))),
                      if e.payment == id then own + [slot] else own, id)
  {
    var own := IdsOf(s.tables.outbox, s.ids, id);
    var m: nat, h: nat :| OwnOrder(s.desk, own, id, m, h);
    var own' := if e.payment == id then own + [slot] else own;
    var outbox := s.desk.outbox[slot := Some(OutboxRow(e, false))];
    forall row: nat
      ensures row in own' <==> IsOwn(outbox, row, id)
    {
      assert row in own <==> IsOwn(s.desk.outbox, row, id);
    }
    OutboxKeepsOrder(s.desk, outbox, own, own', id, m, h);
  }

  lemma CommitKeepsStored(s: Switch, c: Change, healthy: bool)
    requires Stored(s) && Drawn(s) && Commits(s, c, healthy)
    ensures var s' := MoveOn(s, Transaction(c, healthy));
            Stored(s') && Drawn(s')
  {
    var e, slot := EventOf(c).value, s.open[c.Target()];
    var s' := MoveOn(s, Transaction(c, healthy));
    EventTarget(c);
    assert s'.tables.outbox == s.tables.outbox + [OutboxRow(e, false)];
    assert s'.desk.outbox == s.desk.outbox[slot := Some(OutboxRow(e, false))];
  }

  lemma {:induction false} CommitKeepsCoupled(s: Switch, c: Change, healthy: bool, id: PaymentId)
    requires Coupled(s, id) && Commits(s, c, healthy) && (c.Target() == id ==> Announceable(c))
    ensures Coupled(MoveOn(s, Transaction(c, healthy)), id)
  {
    var e, slot := EventOf(c).value, s.open[c.Target()];
    var s' := MoveOn(s, Transaction(c, healthy));
    TransactKeepsValid(s.tables, c, healthy);
    TransactKeepsAnnounced(s.tables, c, healthy, id);
    EventTarget(c);
    assert s'.tables.outbox == s.tables.outbox + [OutboxRow(e, false)];
    CommitKeepsStored(s, c, healthy);
    IdsOfAppend(s.tables.outbox, s.ids, OutboxRow(e, false), slot, id);
    InsertKeepsOrdered(s, slot, e, id);
  }

  lemma EventTarget(c: Change)
    requires EventOf(c).Some?
    ensures EventOf(c).value.payment == c.Target() && !c.UpdateRoute?
  {
  }

  lemma {:induction false} OtherKeepsCoupled(s: Switch, c: Change, healthy: bool, id: PaymentId)
    requires Coupled(s, id) && !Commits(s, c, healthy) && (c.Target() == id ==> Announceable(c))
    ensures Coupled(MoveOn(s, Transaction(c, healthy)), id)
  {
    if EventOf(c).None? {
      TransactKeepsValid(s.tables, c, healthy);
      TransactKeepsAnnounced(s.tables, c, healthy, id);
    }
  }

  lemma {:induction false} MoveKeepsCoupled(s: Switch, move: Move, id: PaymentId)
    requires Coupled(s, id) && MoveAnnounceable(move, id)
    ensures Coupled(MoveOn(s, move), id)
  {
    match move
    case DrawId(p) =>
      if p !in s.open {
        DrawKeepsCoupled(s, p, id);
      }
    case Transaction(c, healthy) =>
      if Commits(s, c, healthy) {
        CommitKeepsCoupled(s, c, healthy, id);
      } else {
        OtherKeepsCoupled(s, c, healthy, id);
      }
    case Relaying(e) =>
      if !e.Draw? && !e.Insert? {
        RelayKeepsCoupled(s, e, id);
      }
  }

  lemma StartCoupled(id: PaymentId)
    ensures Coupled(START, id)
  {
    assert OwnOrder(START.desk, [], id, 0, 0);
  }

  lemma {:induction false} MovesKeepCoupled(moves: seq<Move>, id: PaymentId)
    requires forall i :: 0 <= i < |moves| ==> MoveAnnounceable(moves[i], id)
    ensures Coupled(MoveAll(START, moves), id)
    decreases |moves|
  {
    if moves == [] {
      StartCoupled(id);
    } else {
      MovesKeepCoupled(moves[..|moves| - 1], id);
      MoveKeepsCoupled(MoveAll(START, moves[..|moves| - 1]), moves[|moves| - 1], id);
    }
  }

  // ------------------------------------------------------------ the theorem

  /** The statuses that visible rows announce. */
  function Read(outbox: Slots, rows: seq<nat>): seq<Status>
    requires Visible(outbox, rows)
  {
    seq(|rows|, i requires 0 <= i < |rows| => outbox[rows[i]].value.event.to)
  }

  lemma {:induction false} IdsAreVisible(s: Switch, id: PaymentId, n: nat)
    requires Stored(s) && n <= |s.ids|
    ensures Visible(s.desk.outbox, IdsOf(s.tables.outbox[..n], s.ids[..n], id))
    decreases n
  {
    if n > 0 {
      IdsAreVisible(s, id, n - 1);
      assert s.tables.outbox[..n][..n - 1] == s.tables.outbox[..n - 1] && s.ids[..n][..n - 1] == s.ids[..n - 1];
    }
  }

  /** The rows of a payment, read in commit order, are its events. */
  lemma {:induction false} ReadIsEvents(s: Switch, id: PaymentId, n: nat)
    requires Stored(s) && n <= |s.ids|
    ensures var own := IdsOf(s.tables.outbox[..n], s.ids[..n], id);
            Visible(s.desk.outbox, own) && Read(s.desk.outbox, own) == EventsOf(s.tables.outbox[..n], id)
    decreases n
  {
    IdsAreVisible(s, id, n);
    if n > 0 {
      ReadIsEvents(s, id, n - 1);
      assert s.tables.outbox[..n][..n - 1] == s.tables.outbox[..n - 1] && s.ids[..n][..n - 1] == s.ids[..n - 1];
    }
  }

  /** The first publications of one payment's events, by their target status, in publication order. */
  ghost predicate FollowsHistory(s: Switch, id: PaymentId) {
    var first := OwnIn(s.desk.outbox, First(s.desk.log), id);
    && Visible(s.desk.outbox, first)
    && Read(s.desk.outbox, first) <= WithoutRouted(HistoryOf(s.tables, id))
  }

  /** The row with the payment's largest id announces its current status, unless that is ROUTED. */
  ghost predicate LastRowIsStatus(s: Switch, id: PaymentId) {
    id in s.tables.payments && !s.tables.payments[id].status.Routed? ==>
      exists row: nat ::
        && IsOwn(s.desk.outbox, row, id)
        && s.desk.outbox[row].value.event.to == s.tables.payments[id].status
        && forall other: nat :: IsOwn(s.desk.outbox, other, id) ==> other <= row
  }

  lemma {:induction false} CoupledFollows(s: Switch, id: PaymentId)
    requires Coupled(s, id)
    ensures FollowsHistory(s, id)
  {
    var own := IdsOf(s.tables.outbox, s.ids, id);
    var m: nat, h: nat :| OwnOrder(s.desk, own, id, m, h);
    ReadIsEvents(s, id, |s.ids|);
    assert s.tables.outbox[..|s.ids|] == s.tables.outbox && s.ids[..|s.ids|] == s.ids;
    assert Read(s.desk.outbox, own[..h]) == Read(s.desk.outbox, own)[..h];
  }

  lemma {:induction false} CoupledLast(s: Switch, id: PaymentId)
    requires Coupled(s, id)
    ensures LastRowIsStatus(s, id)
  {
    if id in s.tables.payments && !s.tables.payments[id].status.Routed? {
      var own := IdsOf(s.tables.outbox, s.ids, id);
      var m: nat, h: nat :| OwnOrder(s.desk, own, id, m, h);
      LatestEventIsStatus(s.tables, id);
      ReadIsEvents(s, id, |s.ids|);
      assert s.tables.outbox[..|s.ids|] == s.tables.outbox && s.ids[..|s.ids|] == s.ids;
      assert s.desk.outbox[own[|own| - 1]].value.event.to == s.tables.payments[id].status;
      LastOwn(s.desk.outbox, own, id, m);
    }
  }

  lemma LastOwn(outbox: Slots, own: seq<nat>, id: PaymentId, m: nat)
    requires MarkedInOrder(outbox, own, id, m) && own != []
    ensures IsOwn(outbox, own[|own| - 1], id)
    ensures forall other: nat :: IsOwn(outbox, other, id) ==> other <= own[|own| - 1]
  {
    assert own[|own| - 1] in own;
    forall other: nat | IsOwn(outbox, other, id)
      ensures other <= own[|own| - 1]
    {
      assert other in own;
    }
  }

  /**
   * Over every run of transactions and relay moves, with failures anywhere and with ids that become
   * visible out of order: the first publications of a payment's events, read by their target status,
   * are a prefix of its committed status history without ROUTED, and its last outbox row carries its
   * current status unless that is ROUTED.
   */
  lemma {:induction false} FirstPublicationsFollowHistory(moves: seq<Move>, id: PaymentId)
    requires forall i :: 0 <= i < |moves| ==> MoveAnnounceable(moves[i], id)
    ensures var s := MoveAll(START, moves);
            FollowsHistory(s, id) && LastRowIsStatus(s, id)
  {
    MovesKeepCoupled(moves, id);
    CoupledFollows(MoveAll(START, moves), id);
    CoupledLast(MoveAll(START, moves), id);
  }

  // ------------------------------------------------------------ and all of it is published

  /** A drawn id and a healthy transaction the tables accept: the change and its event appear together. */
  lemma {:induction false} CommitTakesEffect(s: Switch, c: Change)
    requires Drawn(s) && Commits(s, c, true)
    ensures var s' := MoveOn(s, Transaction(c, true));
            && s'.tables == Transact(s.tables, c, true)
            && s'.ids == s.ids + [s.open[c.Target()]]
            && s'.desk.outbox == s.desk.outbox[s.open[c.Target()] := Some(OutboxRow(EventOf(c).value, false))]
  {
  }

  lemma DrainedIsMarked(outbox: Slots, own: seq<nat>, id: PaymentId, m: nat)
    requires MarkedInOrder(outbox, own, id, m) && Pending(outbox, {}) == []
    ensures m == |own|
  {
    PendingOwn(outbox, own, id, m);
    assert own[m..] == [];
  }

  /**
   * Once no row is pending, the first publications of every payment are not a prefix but the whole of its
   * committed status history without ROUTED.
   */
  lemma {:induction false} DrainedPublishesAll(moves: seq<Move>, id: PaymentId)
    requires forall i :: 0 <= i < |moves| ==> MoveAnnounceable(moves[i], id)
    requires Pending(MoveAll(START, moves).desk.outbox, {}) == []
    ensures var s := MoveAll(START, moves);
            var first := OwnIn(s.desk.outbox, First(s.desk.log), id);
            Visible(s.desk.outbox, first) && Read(s.desk.outbox, first) == WithoutRouted(HistoryOf(s.tables, id))
  {
    MovesKeepCoupled(moves, id);
    var s := MoveAll(START, moves);
    var own := IdsOf(s.tables.outbox, s.ids, id);
    var m: nat, h: nat :| OwnOrder(s.desk, own, id, m, h);
    DrainedIsMarked(s.desk.outbox, own, id, m);
    ReadIsEvents(s, id, |s.ids|);
    assert s.tables.outbox[..|s.ids|] == s.tables.outbox && s.ids[..|s.ids|] == s.ids;
    assert own[..h] == own;
  }

  // ------------------------------------------------------------ why one relay

  lemma PicksFirst(first: OutboxRow)
    requires !first.published
    ensures Pick([Some(first), None], Locked([Idle, Idle])) == [0]
  {
    var outbox: Slots := [Some(first), None];
    assert Locked([Idle, Idle]) == {};
    assert outbox[..1] == [Some(first)] && [Some(first)][..0] == [];
    assert Pending([], {}) == [];
    assert Pending([Some(first)], {}) == [0];
  }

  lemma PicksSecond(first: OutboxRow, second: OutboxRow)
    requires !second.published
    ensures Pick([Some(first), Some(second)], Locked([Busy([0], 0), Idle])) == [1]
  {
    var outbox, relays := [Some(first), Some(second)], [Busy([0], 0), Idle];
    assert relays[0].batch[0] == 0;
    assert Locked(relays) == {0};
    assert outbox[..1] == [Some(first)] && [Some(first)][..0] == [];
    assert Pending([], {0}) == [];
    assert Pending([Some(first)], {0}) == [];
  }

  /** The first relay locks row 0, and then row 1 becomes visible. */
  lemma FirstRelayLocks(first: OutboxRow, second: OutboxRow)
    requires !first.published
    ensures Step(Step(Desk([Some(first), None], [], [], [Idle, Idle]), BeginFlush(0)), Insert(1, second))
         == Desk([Some(first), Some(second)], [], [], [Busy([0], 0), Idle])
  {
    PicksFirst(first);
  }

  lemma BeginsWith(outbox: Slots, relays: seq<Tx>, r: nat, batch: seq<nat>)
    requires r < |relays| && relays[r].Idle? && batch == Pick(outbox, Locked(relays))
    ensures Step(Desk(outbox, [], [], relays), BeginFlush(r)) == Desk(outbox, [], [], relays[r := Busy(batch, 0)])
  {
  }

  lemma SecondRelaySkips(first: OutboxRow, second: OutboxRow)
    requires !second.published
    ensures Step(Desk([Some(first), Some(second)], [], [], [Busy([0], 0), Idle]), BeginFlush(1))
         == Desk([Some(first), Some(second)], [], [], [Busy([0], 0), Busy([1], 0)])
  {
    PicksSecond(first, second);
    BeginsWith([Some(first), Some(second)], [Busy([0], 0), Idle], 1, [1]);
  }

  lemma SecondRelayPublishes(outbox: Slots)
    ensures Step(Desk(outbox, [], [], [Busy([0], 0), Busy([1], 0)]), Publish(1))
         == Desk(outbox, [1], [], [Busy([0], 0), Busy([1], 1)])
  {
  }

  /**
   * One relay is needed: while a first relay holds the lock of a payment's first row, at work or with a
   * connection that broke, a second one skips that row and publishes the payment's second row before it.
   */
  lemma {:induction false} TwoRelaysReverseRows(first: OutboxRow, second: OutboxRow)
    requires !first.published && !second.published && first.event.payment == second.event.payment
    ensures var id, d := first.event.payment, Desk([Some(first), None], [], [], [Idle, Idle]);
            var d' := Step(Step(Step(Step(d, BeginFlush(0)), Insert(1, second)), BeginFlush(1)), Publish(1));
            && Opening(d)
            && IsOwn(d'.outbox, 0, id) && IsOwn(d'.outbox, 1, id)
            && OwnIn(d'.outbox, First(d'.log), id) == [1]
  {
    FirstRelayLocks(first, second);
    SecondRelaySkips(first, second);
    SecondRelayPublishes([Some(first), Some(second)]);
    FirstAppend([], 1);
    OwnInAppend([Some(first), Some(second)], [], 1, first.event.payment);
    assert [] + [1] == [1];
  }
}
