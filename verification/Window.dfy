/** The settlement window under every interleaving of adds and settles, and the ledger it writes. */
module Window {
  import opened Settlement

  datatype Kind = Debit | Credit | NetRow

  datatype LedgerRow = LedgerRow(bic: string, paymentId: string, kind: Kind, amount: int64)

  /**
   * `pending` counts background settles that were started and have not run yet. `accepted` and
   * `batches` record, for specification, the entries whose Add returned nil and the batches of
   * successful settles.
   */
  datatype State = State(entries: seq<Entry>, closed: bool, maxSize: int, pending: nat,
                         accepted: seq<Entry>, batches: seq<seq<Entry>>)

  function Opened(maxSize: int): State {
    State([], false, maxSize, 0, [], [])
  }

  function Added(s: State, e: Entry): State {
    if s.closed then s
    else
      var entries := s.entries + [e];
      s.(entries := entries, accepted := s.accepted + [e],
         pending := if |entries| >= s.maxSize then s.pending + 1 else s.pending)
  }

  function Settled(s: State): State {
    if s.closed then s else s.(closed := true, entries := [], batches := s.batches + [s.entries])
  }

  /** Each call holds the lock for its whole effect on the window, so calls interleave as a sequence. */
  datatype Call = Add(entry: Entry) | ExplicitSettle | BackgroundSettle

  function Step(s: State, c: Call): State {
    match c
    case Add(e) => Added(s, e)
    case ExplicitSettle => Settled(s)
    case BackgroundSettle => if s.pending == 0 then s else Settled(s.(pending := s.pending - 1))
  }

  function Steps(s: State, calls: seq<Call>): State {
    if calls == [] then s else Step(Steps(s, calls[..|calls| - 1]), calls[|calls| - 1])
  }

  predicate Inv(s: State) {
    if s.closed then s.entries == [] && s.batches == [s.accepted]
    else s.entries == s.accepted && s.batches == []
  }

  lemma {:induction false} StepsKeepInv(maxSize: int, calls: seq<Call>)
    ensures Inv(Steps(Opened(maxSize), calls))
    decreases |calls|
  {
    if calls != [] {
      StepsKeepInv(maxSize, calls[..|calls| - 1]);
    }
  }

  /** A closed window stays as it is, whatever is called on it. */
  lemma {:induction false} ClosedIsFinal(s: State, calls: seq<Call>)
    requires s.closed
    ensures var s' := Steps(s, calls);
            s'.closed && s'.accepted == s.accepted && s'.batches == s.batches && s'.entries == s.entries
    decreases |calls|
  {
    if calls != [] {
      ClosedIsFinal(s, calls[..|calls| - 1]);
    }
  }

  lemma {:induction false} StepsCompose(s: State, a: seq<Call>, b: seq<Call>)
    ensures Steps(s, a + b) == Steps(Steps(s, a), b)
    decreases |b|
  {
    if b == [] {
      assert a + b == a;
    } else {
      assert (a + b)[..|a + b| - 1] == a + b[..|b| - 1];
      StepsCompose(s, a, b[..|b| - 1]);
    }
  }

  /**
   * For every interleaving of adds, size-triggered background settles and explicit settles: at most
   * one settle succeeds, its batch is exactly the entries whose Add returned nil, in order, and no
   * entry is accepted after the window closed.
   */
  lemma {:induction false} OneSettleTakesAllAccepted(maxSize: int, calls: seq<Call>, later: seq<Call>)
    ensures var s, s' := Steps(Opened(maxSize), calls), Steps(Opened(maxSize), calls + later);
            && |s.batches| <= 1
            && (s.closed <==> |s.batches| == 1)
            && (s.closed ==> s.batches == [s.accepted])
            && (s.closed ==> s'.accepted == s.accepted && s'.batches == s.batches)
  {
    StepsKeepInv(maxSize, calls);
    StepsCompose(Opened(maxSize), calls, later);
    if Steps(Opened(maxSize), calls).closed {
      ClosedIsFinal(Steps(Opened(maxSize), calls), later);
    }
  }

  // ------------------------------------------------------------ the batch, from the calls alone

  /** The entries of the Add calls, in order. */
  function AddsIn(calls: seq<Call>): seq<Entry> {
    if calls == [] then []
    else
      var n := |calls| - 1;
      if calls[n].Add? then AddsIn(calls[..n]) + [calls[n].entry] else AddsIn(calls[..n])
  }

  /** How many background settles n additions start: one for each that finds the window full. */
  function Started(maxSize: int, n: nat): nat {
    if n == 0 || n < maxSize then 0 else if maxSize <= 1 then n else n - maxSize + 1
  }

  /** Call i would close an open window: an explicit settle, or a background one if additions have started it. */
  predicate Closes(maxSize: int, calls: seq<Call>, i: nat)
    requires i < |calls|
  {
    calls[i].ExplicitSettle? || (calls[i].BackgroundSettle? && Started(maxSize, |AddsIn(calls[..i])|) > 0)
  }

  predicate NeverClosed(maxSize: int, calls: seq<Call>) {
    forall i :: 0 <= i < |calls| ==> !Closes(maxSize, calls, i)
  }

  /** While no call has closed the window it holds all added entries, and has started the settles that are due. */
  lemma {:induction false} OpenHoldsAll(maxSize: int, calls: seq<Call>)
    requires NeverClosed(maxSize, calls)
    ensures var s, adds := Steps(Opened(maxSize), calls), AddsIn(calls);
            s == Opened(maxSize).(entries := adds, accepted := adds, pending := Started(maxSize, |adds|))
    decreases |calls|
  {
    if calls != [] {
      var n := |calls| - 1;
      assert forall i :: 0 <= i < n ==> calls[..n][..i] == calls[..i];
      forall i | 0 <= i < n
        ensures !Closes(maxSize, calls[..n], i)
      {
        assert !Closes(maxSize, calls, i);
      }
      OpenHoldsAll(maxSize, calls[..n]);
      assert !Closes(maxSize, calls, n);
    }
  }

  /** Call c is the first that closes the window. */
  predicate FirstCloses(maxSize: int, calls: seq<Call>, c: nat) {
    c < |calls| && Closes(maxSize, calls, c) && NeverClosed(maxSize, calls[..c])
  }

  lemma {:induction false} ClosingTakesAll(maxSize: int, calls: seq<Call>, c: nat)
    requires FirstCloses(maxSize, calls, c)
    ensures var s, adds := Steps(Opened(maxSize), calls[..c + 1]), AddsIn(calls[..c]);
            s.closed && s.entries == [] && s.accepted == adds && s.batches == [adds]
  {
    OpenHoldsAll(maxSize, calls[..c]);
    assert calls[..c + 1][..c] == calls[..c];
  }

  /**
   * The one batch, read off the calls alone: it is the list of the entries of all Add calls made before the
   * first call that closes the window, in order. Until there is such a call the window is open, holds all of
   * them, and has started one background settle for each addition that found it full.
   */
  lemma {:induction false} BatchIsAllAdds(maxSize: int, calls: seq<Call>)
    ensures var s := Steps(Opened(maxSize), calls);
            && (NeverClosed(maxSize, calls) ==>
                  && !s.closed && s.batches == []
                  && s.entries == AddsIn(calls) && s.pending == Started(maxSize, |AddsIn(calls)|))
            && (forall c: nat :: FirstCloses(maxSize, calls, c) ==>
                  s.closed && s.batches == [AddsIn(calls[..c])] && s.accepted == AddsIn(calls[..c]))
  {
    if NeverClosed(maxSize, calls) {
      OpenHoldsAll(maxSize, calls);
    }
    forall c: nat | FirstCloses(maxSize, calls, c)
      ensures var s := Steps(Opened(maxSize), calls);
              s.closed && s.batches == [AddsIn(calls[..c])] && s.accepted == AddsIn(calls[..c])
    {
      ClosingTakesAll(maxSize, calls, c);
      assert calls == calls[..c + 1] + calls[c + 1..];
      StepsCompose(Opened(maxSize), calls[..c + 1], calls[c + 1..]);
      ClosedIsFinal(Steps(Opened(maxSize), calls[..c + 1]), calls[c + 1..]);
    }
  }

  // ------------------------------------------------------------ the ledger

  function Postings(entries: seq<Entry>): seq<LedgerRow> {
    if entries == [] then []
    else
      var e := entries[|entries| - 1];
      Postings(entries[..|entries| - 1])
      + [LedgerRow(e.sourceBIC, e.paymentId, Debit, Wrap(-(e.amount as int))),
         LedgerRow(e.destBIC, e.paymentId, Credit, e.amount)]
  }

  function NetRows(positions: seq<NetPosition>): seq<LedgerRow> {
    seq(|positions|, i requires 0 <= i < |positions| => LedgerRow(positions[i].bic, "net", NetRow, positions[i].amount))
  }

  /** The amounts of one BIC's debit and credit rows, or of its net rows. */
  function Booked(rows: seq<LedgerRow>, bic: string, net: bool): int {
    if rows == [] then 0
    else
      var r := rows[|rows| - 1];
      Booked(rows[..|rows| - 1], bic, net) + if r.bic == bic && r.kind.NetRow? == net then r.amount else 0
  }

  lemma {:induction false} BookedConcat(a: seq<LedgerRow>, b: seq<LedgerRow>, bic: string, net: bool)
    ensures Booked(a + b, bic, net) == Booked(a, bic, net) + Booked(b, bic, net)
    decreases |b|
  {
    if b == [] {
      assert a + b == a;
    } else {
      assert (a + b)[..|a + b| - 1] == a + b[..|b| - 1];
      BookedConcat(a, b[..|b| - 1], bic, net);
    }
  }

  lemma {:induction false} BookedAppend(rows: seq<LedgerRow>, r: LedgerRow, bic: string, net: bool)
    ensures Booked(rows + [r], bic, net)
         == Booked(rows, bic, net) + if r.bic == bic && r.kind.NetRow? == net then r.amount else 0
  {
    assert (rows + [r])[..|rows|] == rows;
  }

  /** What one entry books for a BIC. */
  function Booking(e: Entry, bic: string): int {
    (if e.destBIC == bic then e.amount else 0) + (if e.sourceBIC == bic then Wrap(-(e.amount as int)) else 0)
  }

  lemma {:induction false} PostingsStep(entries: seq<Entry>, bic: string, net: bool)
    requires entries != []
    ensures var n := |entries| - 1;
            var e := entries[n];
            Booked(Postings(entries), bic, net) == Booked(Postings(entries[..n]), bic, net) +
            if net then 0 else Booking(e, bic)
  {
    var n := |entries| - 1;
    var e, before := entries[n], Postings(entries[..n]);
    var debit := LedgerRow(e.sourceBIC, e.paymentId, Debit, Wrap(-(e.amount as int)));
    var credit := LedgerRow(e.destBIC, e.paymentId, Credit, e.amount);
    assert Postings(entries) == (before + [debit]) + [credit];
    BookedAppend(before + [debit], credit, bic, net);
    BookedAppend(before, debit, bic, net);
  }

  lemma {:induction false} PostingsAreNoNetRows(entries: seq<Entry>, bic: string)
    ensures Booked(Postings(entries), bic, true) == 0
    decreases |entries|
  {
    if entries != [] {
      PostingsAreNoNetRows(entries[..|entries| - 1], bic);
      PostingsStep(entries, bic, true);
    }
  }

  /** The debits and credits of one BIC sum to its net, modulo 2^64. */
  lemma {:induction false} PostingsBookModulo(entries: seq<Entry>, bic: string)
    ensures Wrap(Booked(Postings(entries), bic, false)) == Wrap(Net(entries, bic))
    decreases |entries|
  {
    if entries != [] {
      var n := |entries| - 1;
      PostingsBookModulo(entries[..n], bic);
      PostingsStep(entries, bic, false);
      PostingModulo(Booked(Postings(entries[..n]), bic, false), Net(entries[..n], bic), entries[n], bic);
    }
  }

  /** Sums that agree modulo 2^64 still agree after one more entry. */
  lemma PostingModulo(before: int, net: int, e: Entry, bic: string)
    requires Wrap(before) == Wrap(net)
    ensures Wrap(before + Booking(e, bic)) == Wrap(net + Share(e, bic))
  {
    var a: int := e.amount;
    var credit := if e.destBIC == bic then a else 0;
    SameWrapPlus(before, net, credit);
    if e.sourceBIC == bic {
      DebitModulo(before + credit, net + credit, a);
      assert before + Booking(e, bic) == (before + credit) + Wrap(-a);
      assert net + Share(e, bic) == (net + credit) - a;
    } else {
      assert Booking(e, bic) == credit && Share(e, bic) == credit;
    }
  }

  lemma DebitModulo(before: int, net: int, a: int)
    requires Wrap(before) == Wrap(net)
    ensures Wrap(before + Wrap(-a)) == Wrap(net - a)
  {
    WrapSum(-a, before, net);
  }

  lemma SameWrapPlus(x: int, x': int, y: int)
    requires Wrap(x) == Wrap(x')
    ensures Wrap(x + y) == Wrap(x' + y)
  {
    WrapAdd(x, y);
    WrapAdd(x', y);
  }

  lemma {:induction false} PostingsBook(entries: seq<Entry>, bic: string)
    requires Volume(entries) < TWO63
    ensures Booked(Postings(entries), bic, false) == Net(entries, bic)
    decreases |entries|
  {
    if entries != [] {
      PostingsBook(entries[..|entries| - 1], bic);
      PostingsStep(entries, bic, false);
    }
  }

  /** The net rows of one BIC: its position if it has one, and nothing otherwise. */
  lemma {:induction false} NetRowsBook(positions: seq<NetPosition>, bic: string)
    requires forall i, j :: 0 <= i < j < |positions| ==> positions[i].bic != positions[j].bic
    ensures Booked(NetRows(positions), bic, false) == 0
    ensures forall i :: 0 <= i < |positions| && positions[i].bic == bic ==>
              Booked(NetRows(positions), bic, true) == positions[i].amount
    ensures (forall i :: 0 <= i < |positions| ==> positions[i].bic != bic) ==>
              Booked(NetRows(positions), bic, true) == 0
    decreases |positions|
  {
    if positions != [] {
      var n := |positions| - 1;
      assert NetRows(positions)[..n] == NetRows(positions[..n]);
      NetRowsBook(positions[..n], bic);
      if exists i :: 0 <= i < n && positions[i].bic == bic {
        var i :| 0 <= i < n && positions[i].bic == bic;
        assert positions[..n][i].bic == bic;
      }
    }
  }

  /** The net row of a BIC carries its wrapped net; a BIC without one has a wrapped net of zero. */
  lemma {:induction false} NetRowsCarryNets(entries: seq<Entry>, positions: seq<NetPosition>, bic: string)
    requires Nets(entries, positions)
    ensures Booked(NetRows(positions), bic, true) == Wrap(Net(entries, bic))
  {
    NetRowsBook(positions, bic);
    if forall i :: 0 <= i < |positions| ==> positions[i].bic != bic {
      if Touched(entries, bic) {
        var j :| 0 <= j < |entries| && Touches(entries[j], bic);
        assert entries[j] in entries && Listed(entries, positions, bic);
      } else {
        NetOfUntouched(entries, bic);
      }
    }
  }

  /** The rows that Settle writes when a ledger is set. */
  function Ledger(entries: seq<Entry>, positions: seq<NetPosition>): seq<LedgerRow> {
    Postings(entries) + NetRows(positions)
  }

  /** Row by row: a debit and a credit with the payment's id for each entry, and then one row per position. */
  predicate RowsOf(entries: seq<Entry>, positions: seq<NetPosition>, rows: seq<LedgerRow>) {
    && |rows| == 2 * |entries| + |positions|
    && (forall i :: 0 <= i < |entries| ==>
          var e := entries[i];
          && rows[2 * i] == LedgerRow(e.sourceBIC, e.paymentId, Debit, Wrap(-(e.amount as int)))
          && rows[2 * i + 1] == LedgerRow(e.destBIC, e.paymentId, Credit, e.amount))
    && (forall j :: 0 <= j < |positions| ==>
          rows[2 * |entries| + j] == LedgerRow(positions[j].bic, "net", NetRow, positions[j].amount))
  }

  lemma {:induction false} PostingRows(entries: seq<Entry>)
    ensures RowsOf(entries, [], Postings(entries))
    decreases |entries|
  {
    if entries != [] {
      PostingRows(entries[..|entries| - 1]);
    }
  }

  /** What Settle writes, row by row. */
  lemma LedgerRows(entries: seq<Entry>, positions: seq<NetPosition>)
    ensures RowsOf(entries, positions, Ledger(entries, positions))
  {
    PostingRows(entries);
  }

  /** The amount of the BIC's single net row, or zero when it has none. */
  ghost predicate IsNetRowOf(positions: seq<NetPosition>, bic: string, amount: int) {
    && (forall i, j :: 0 <= i < j < |positions| ==> positions[i].bic != positions[j].bic)
    && (forall i :: 0 <= i < |positions| && positions[i].bic == bic ==> amount == positions[i].amount)
    && ((forall i :: 0 <= i < |positions| ==> positions[i].bic != bic) ==> amount == 0)
  }

  lemma {:induction false} LedgerSplits(entries: seq<Entry>, positions: seq<NetPosition>, bic: string)
    requires Nets(entries, positions)
    ensures Booked(Ledger(entries, positions), bic, false) == Booked(Postings(entries), bic, false)
    ensures Booked(Ledger(entries, positions), bic, true) == Booked(NetRows(positions), bic, true)
    ensures IsNetRowOf(positions, bic, Booked(NetRows(positions), bic, true))
  {
    NetRowsBook(positions, bic);
    PostingsAreNoNetRows(entries, bic);
    BookedConcat(Postings(entries), NetRows(positions), bic, false);
    BookedConcat(Postings(entries), NetRows(positions), bic, true);
  }

  /**
   * Double entry: for each BIC the debits and credits that Settle issues sum, in 64-bit arithmetic, to
   * its single net row, or to zero when it has none. The sum is exact if the absolute amounts sum
   * below 2^63.
   */
  lemma {:induction false} DoubleEntry(entries: seq<Entry>, positions: seq<NetPosition>, bic: string)
    requires Nets(entries, positions)
    ensures var ledger := Ledger(entries, positions);
            && IsNetRowOf(positions, bic, Wrap(Booked(ledger, bic, false)))
            && Booked(ledger, bic, true) == Wrap(Booked(ledger, bic, false))
            && (Volume(entries) < TWO63 ==>
                  Booked(ledger, bic, false) == Booked(ledger, bic, true) == Net(entries, bic))
  {
    LedgerSplits(entries, positions, bic);
    NetRowsCarryNets(entries, positions, bic);
    PostingsBookModulo(entries, bic);
    if Volume(entries) < TWO63 {
      PostingsBook(entries, bic);
      NetWithinVolume(entries, bic);
    }
  }

  // ------------------------------------------------------------ the window object

  class SettlementWindow {
    const maxSize: int
    const hasLedger: bool
    var entries: seq<Entry>
    var closed: bool
    var pending: nat
    var ledger: seq<LedgerRow>
    ghost var accepted: seq<Entry>
    ghost var batches: seq<seq<Entry>>

    ghost function Contents(): State
      reads this
    {
      State(entries, closed, maxSize, pending, accepted, batches)
    }

    constructor (maxSize: int, hasLedger: bool)
      ensures Contents() == Opened(maxSize) && this.hasLedger == hasLedger && ledger == []
    {
      this.maxSize, this.hasLedger := maxSize, hasLedger;
      entries, closed, pending, ledger := [], false, 0, [];
      accepted, batches := [], [];
    }

    method Add(e: Entry) returns (ok: bool)
      modifies this
      ensures ok <==> !old(closed)
      ensures Contents() == Added(old(Contents()), e) && ledger == old(ledger)
      ensures ok ==> entries == old(entries) + [e] && accepted == old(accepted) + [e]
      ensures !ok ==> entries == old(entries) && accepted == old(accepted)
      ensures pending == if ok && |entries| >= maxSize then old(pending) + 1 else old(pending)
      ensures closed == old(closed) && batches == old(batches)
    {
      if closed {
        return false;
      }
      entries := entries + [e];
      accepted := accepted + [e];
      if |entries| >= maxSize {
        pending := pending + 1; // go w.Settle(ctx)
      }
      return true;
    }

    method Settle() returns (ok: bool, positions: seq<NetPosition>)
      modifies this
      ensures ok <==> !old(closed)
      ensures Contents() == Settled(old(Contents()))
      ensures closed && pending == old(pending) && accepted == old(accepted)
      ensures ok ==> entries == [] && batches == old(batches) + [old(entries)]
      ensures !ok ==> entries == old(entries) && batches == old(batches)
      ensures ok ==> Nets(old(entries), positions)
      ensures ledger == if ok && hasLedger then old(ledger) + Ledger(old(entries), positions) else old(ledger)
    {
      if closed {
        return false, [];
      }
      closed := true;
      var batch := entries;
      batches := batches + [entries];
      entries := [];
      positions := CalculateNetPositions(batch);
      if hasLedger {
        WriteLedger(batch, positions);
      }
      return true, positions;
    }

    /** The two ledger loops of Settle; errors of single writes are dropped. */
    method WriteLedger(batch: seq<Entry>, positions: seq<NetPosition>)
      modifies this`ledger
      ensures ledger == old(ledger) + Ledger(batch, positions)
    {
      ghost var before := ledger;
      for i := 0 to |batch|
        invariant ledger == before + Postings(batch[..i])
      {
        var e := batch[i];
        assert batch[..i + 1][..i] == batch[..i];
        ledger := ledger + [LedgerRow(e.sourceBIC, e.paymentId, Debit, Wrap(-(e.amount as int)))];
        ledger := ledger + [LedgerRow(e.destBIC, e.paymentId, Credit, e.amount)];
        assert ledger == before + Postings(batch[..i + 1]);
      }
      assert batch[..|batch|] == batch;
      ghost var posted := ledger;
      for i := 0 to |positions|
        invariant ledger == posted + NetRows(positions)[..i]
      {
        ledger := ledger + [LedgerRow(positions[i].bic, "net", NetRow, positions[i].amount)];
        assert NetRows(positions)[..i + 1] == NetRows(positions)[..i] + [NetRows(positions)[i]];
      }
      assert NetRows(positions)[..|positions|] == NetRows(positions);
    }
  }
}
