/** Net settlement: a window that collects entries, closes once, nets per BIC and writes a ledger. */
module Settlement {
  import opened Sums

  const TWO63: int := 0x8000_0000_0000_0000
  const TWO64: int := 0x1_0000_0000_0000_0000

  type int64 = x: int | -TWO63 <= x < TWO63

  /** Two's complement: what 64-bit arithmetic makes of an exact result. */
  function Wrap(x: int): (r: int64)
    ensures -TWO63 <= x < TWO63 ==> r == x
  {
    (x + TWO63) % TWO64 - TWO63
  }

  datatype Entry = Entry(paymentId: string, sourceBIC: string, destBIC: string, amount: int64, currency: string)

  datatype NetPosition = NetPosition(bic: string, amount: int64, currency: string)

  predicate Touches(e: Entry, bic: string) {
    e.sourceBIC == bic || e.destBIC == bic
  }

  predicate Touched(entries: seq<Entry>, bic: string) {
    exists i :: 0 <= i < |entries| && Touches(entries[i], bic)
  }

  /** Received minus sent, by one entry. */
  function Share(e: Entry, bic: string): int {
    (if e.destBIC == bic then e.amount else 0) - (if e.sourceBIC == bic then e.amount else 0)
  }

  /** Received minus sent, over all entries. */
  function Net(entries: seq<Entry>, bic: string): int {
    if entries == [] then 0
    else Net(entries[..|entries| - 1], bic) + Share(entries[|entries| - 1], bic)
  }

  function Abs(x: int): nat {
    if x < 0 then -x else x
  }

  /** The sum of all absolute amounts. */
  function Volume(entries: seq<Entry>): nat {
    if entries == [] then 0
    else Volume(entries[..|entries| - 1]) + Abs(entries[|entries| - 1].amount)
  }

  /** The currency of the first entry that names the BIC. */
  function FirstCurrency(entries: seq<Entry>, bic: string): string {
    if entries == [] then ""
    else if Touches(entries[0], bic) then entries[0].currency
    else FirstCurrency(entries[1..], bic)
  }

  /** What it means for `positions` to net `entries`, in whatever order they come. */
  predicate Nets(entries: seq<Entry>, positions: seq<NetPosition>) {
    && (forall i, j :: 0 <= i < j < |positions| ==> positions[i].bic != positions[j].bic)
    && (forall i :: 0 <= i < |positions| ==>
          && Touched(entries, positions[i].bic)
          && positions[i].amount == Wrap(Net(entries, positions[i].bic))
          && positions[i].amount != 0
          && positions[i].currency == FirstCurrency(entries, positions[i].bic))
    && (forall e :: e in entries ==> Listed(entries, positions, e.sourceBIC) && Listed(entries, positions, e.destBIC))
  }

  predicate Listed(entries: seq<Entry>, positions: seq<NetPosition>, bic: string) {
    Wrap(Net(entries, bic)) != 0 ==> exists i :: 0 <= i < |positions| && positions[i].bic == bic
  }

  lemma {:induction false} NetAppend(entries: seq<Entry>, e: Entry, bic: string)
    ensures Net(entries + [e], bic) == Net(entries, bic) + Share(e, bic)
  {
    assert (entries + [e])[..|entries|] == entries;
  }

  lemma {:induction false} NetStep(entries: seq<Entry>, i: nat, bic: string)
    requires i < |entries|
    ensures Net(entries[..i + 1], bic) == Net(entries[..i], bic) + Share(entries[i], bic)
  {
    assert entries[..i + 1] == entries[..i] + [entries[i]];
    NetAppend(entries[..i], entries[i], bic);
  }

  lemma {:induction false} NetOfUntouched(entries: seq<Entry>, bic: string)
    requires !Touched(entries, bic)
    ensures Net(entries, bic) == 0
    decreases |entries|
  {
    if entries != [] {
      var n := |entries| - 1;
      assert !Touches(entries[n], bic);
      assert forall i :: 0 <= i < n ==> entries[..n][i] == entries[i];
      NetOfUntouched(entries[..n], bic);
    }
  }

  /** Wrapping early or late makes no difference. */
  lemma WrapAdd(x: int, y: int)
    ensures Wrap(Wrap(x) + y) == Wrap(x + y)
  {
    var k := (x + TWO63) / TWO64;
    assert Wrap(x) == x - k * TWO64;
    assert (x + y + TWO63 - k * TWO64) % TWO64 == (x + y + TWO63) % TWO64;
  }

  function Get(m: map<string, int64>, bic: string): int64 {
    if bic in m then m[bic] else 0
  }

  /** The map holds exactly the named BICs, each with its wrapped net. */
  ghost predicate HoldsNets(entries: seq<Entry>, m: map<string, int64>) {
    && (forall bic :: bic in m <==> Touched(entries, bic))
    && (forall bic :: bic in m ==> m[bic] == Wrap(Net(entries, bic)))
  }

  method NetMap(entries: seq<Entry>) returns (netMap: map<string, int64>)
    ensures HoldsNets(entries, netMap)
  {
    netMap := map[];
    NothingHolds(entries);
    for i := 0 to |entries|
      invariant HoldsNets(entries[..i], netMap)
    {
      var e := entries[i];
      ghost var before := netMap;
      netMap := netMap[e.sourceBIC := Wrap(Get(netMap, e.sourceBIC) - e.amount)];
      netMap := netMap[e.destBIC := Wrap(Get(netMap, e.destBIC) + e.amount)];
      NetMapStep(entries, i, before, netMap);
    }
    assert entries[..|entries|] == entries;
  }

  lemma NothingHolds(entries: seq<Entry>)
    ensures HoldsNets(entries[..0], map[])
  {
  }

  lemma TouchedStep(entries: seq<Entry>, i: nat, bic: string)
    requires i < |entries|
    ensures Touched(entries[..i + 1], bic) <==> Touched(entries[..i], bic) || Touches(entries[i], bic)
  {
    assert entries[..i + 1] == entries[..i] + [entries[i]];
    if Touches(entries[i], bic) {
      assert Touches(entries[..i + 1][i], bic);
    }
    if Touched(entries[..i], bic) {
      var j :| 0 <= j < i && Touches(entries[..i][j], bic);
      assert Touches(entries[..i + 1][j], bic);
    }
  }

  /** One entry's two updates of the map. */
  function Posted(m: map<string, int64>, e: Entry): map<string, int64> {
    var debited := m[e.sourceBIC := Wrap(Get(m, e.sourceBIC) - e.amount)];
    debited[e.destBIC := Wrap(Get(debited, e.destBIC) + e.amount)]
  }

  /** The debit alone. */
  lemma DebitedShare(m: map<string, int64>, e: Entry, bic: string, total: int)
    requires Get(m, bic) == Wrap(total)
    ensures var debited := m[e.sourceBIC := Wrap(Get(m, e.sourceBIC) - e.amount)];
            Get(debited, bic) == Wrap(if e.sourceBIC == bic then total - e.amount else total)
  {
    if e.sourceBIC == bic {
      WrapAdd(total, -(e.amount as int));
    }
  }

  /** Both updates together add the entry's share to every BIC's total, wrapped. */
  lemma PostedAddsShare(m: map<string, int64>, e: Entry, bic: string, total: int)
    requires Get(m, bic) == Wrap(total)
    ensures Get(Posted(m, e), bic) == Wrap(total + Share(e, bic))
  {
    DebitedShare(m, e, bic, total);
    if e.destBIC == bic {
      WrapAdd(if e.sourceBIC == bic then total - e.amount else total, e.amount);
    }
  }

  lemma {:induction false} PostedNet(entries: seq<Entry>, i: nat, m: map<string, int64>, bic: string)
    requires i < |entries| && HoldsNets(entries[..i], m)
    ensures Get(Posted(m, entries[i]), bic) == Wrap(Net(entries[..i + 1], bic))
  {
    NetStep(entries, i, bic);
    if bic !in m {
      NetOfUntouched(entries[..i], bic);
    }
    PostedAddsShare(m, entries[i], bic, Net(entries[..i], bic));
  }

  lemma NetMapStep(entries: seq<Entry>, i: nat, m: map<string, int64>, m': map<string, int64>)
    requires i < |entries| && HoldsNets(entries[..i], m) && m' == Posted(m, entries[i])
    ensures HoldsNets(entries[..i + 1], m')
  {
    forall bic
      ensures bic in m' <==> Touched(entries[..i + 1], bic)
      ensures bic in m' ==> m'[bic] == Wrap(Net(entries[..i + 1], bic))
    {
      TouchedStep(entries, i, bic);
      PostedNet(entries, i, m, bic);
    }
  }

  /** Entry i is the first that names the BIC. */
  predicate FirstTouching(entries: seq<Entry>, bic: string, i: nat) {
    i < |entries| && Touches(entries[i], bic) && forall j :: 0 <= j < i ==> !Touches(entries[j], bic)
  }

  lemma {:induction false} FirstCurrencyIs(entries: seq<Entry>, bic: string)
    ensures forall i :: 0 <= i < |entries| && FirstTouching(entries, bic, i) ==>
              FirstCurrency(entries, bic) == entries[i].currency
    ensures !Touched(entries, bic) ==> FirstCurrency(entries, bic) == ""
    decreases |entries|
  {
    if entries != [] && !Touches(entries[0], bic) {
      var rest := entries[1..];
      FirstCurrencyIs(rest, bic);
      forall i | 0 <= i < |entries| && FirstTouching(entries, bic, i)
        ensures FirstTouching(rest, bic, i - 1)
      {
        assert forall j :: 0 <= j < i - 1 ==> rest[j] == entries[j + 1];
      }
      if Touched(rest, bic) {
        var j :| 0 <= j < |rest| && Touches(rest[j], bic);
        assert Touches(entries[j + 1], bic);
      }
    }
  }

  /** The currency label, found by scanning the entries. */
  method LabelOf(entries: seq<Entry>, bic: string) returns (currency: string)
    ensures currency == FirstCurrency(entries, bic)
    ensures forall i :: 0 <= i < |entries| && FirstTouching(entries, bic, i) ==> currency == entries[i].currency
    ensures !Touched(entries, bic) ==> currency == ""
  {
    FirstCurrencyIs(entries, bic);
    currency := "";
    for i := 0 to |entries|
      invariant currency == "" && FirstCurrency(entries, bic) == FirstCurrency(entries[i..], bic)
    {
      if entries[i].sourceBIC == bic || entries[i].destBIC == bic {
        currency := entries[i].currency;
        break;
      }
      assert entries[i..][1..] == entries[i + 1..];
    }
  }

  /** The positions of the BICs in `done`. */
  ghost predicate NetsSome(entries: seq<Entry>, done: set<string>, positions: seq<NetPosition>) {
    && (forall i, j :: 0 <= i < j < |positions| ==> positions[i].bic != positions[j].bic)
    && (forall i :: 0 <= i < |positions| ==>
          && positions[i].bic in done
          && positions[i].amount == Wrap(Net(entries, positions[i].bic))
          && positions[i].amount != 0
          && positions[i].currency == FirstCurrency(entries, positions[i].bic))
    && (forall bic :: bic in done ==> Listed(entries, positions, bic))
  }

  lemma {:induction false} NetsOneMore(entries: seq<Entry>, done: set<string>, positions: seq<NetPosition>,
                                       bic: string, currency: string)
    requires NetsSome(entries, done, positions) && bic !in done
    requires currency == FirstCurrency(entries, bic)
    ensures Wrap(Net(entries, bic)) == 0 ==> NetsSome(entries, done + {bic}, positions)
    ensures Wrap(Net(entries, bic)) != 0 ==>
              NetsSome(entries, done + {bic}, positions + [NetPosition(bic, Wrap(Net(entries, bic)), currency)])
  {
    var more := positions + [NetPosition(bic, Wrap(Net(entries, bic)), currency)];
    assert more[|positions|].bic == bic;
    forall b | b in done && Wrap(Net(entries, b)) != 0
      ensures Listed(entries, more, b)
    {
      assert Listed(entries, positions, b);
      var i :| 0 <= i < |positions| && positions[i].bic == b;
      assert more[i].bic == b;
    }
  }

  method CalculateNetPositions(entries: seq<Entry>) returns (positions: seq<NetPosition>)
    ensures Nets(entries, positions)
  {
    var netMap := NetMap(entries);
    positions := [];
    var left := netMap.Keys;
    while left != {} // map iteration order is arbitrary
      invariant left <= netMap.Keys
      invariant NetsSome(entries, netMap.Keys - left, positions)
      decreases |left|
    {
      var bic :| bic in left;
      var amount := netMap[bic];
      NetsOneMore(entries, netMap.Keys - left, positions, bic, FirstCurrency(entries, bic));
      assert netMap.Keys - left + {bic} == netMap.Keys - (left - {bic});
      left := left - {bic};
      if amount != 0 {
        var currency := LabelOf(entries, bic);
        positions := positions + [NetPosition(bic, amount, currency)];
      }
    }
    NetsAll(entries, netMap, positions);
  }

  lemma {:induction false} NetsAll(entries: seq<Entry>, netMap: map<string, int64>, positions: seq<NetPosition>)
    requires HoldsNets(entries, netMap) && NetsSome(entries, netMap.Keys, positions)
    ensures Nets(entries, positions)
  {
    forall e | e in entries
      ensures Listed(entries, positions, e.sourceBIC) && Listed(entries, positions, e.destBIC)
    {
      var i :| 0 <= i < |entries| && entries[i] == e;
      assert Touches(entries[i], e.sourceBIC) && Touches(entries[i], e.destBIC);
    }
  }

  // ------------------------------------------------------------ what netting promises

  lemma {:induction false} NetWithinVolume(entries: seq<Entry>, bic: string)
    ensures Abs(Net(entries, bic)) <= Volume(entries)
    decreases |entries|
  {
    if entries != [] {
      NetWithinVolume(entries[..|entries| - 1], bic);
    }
  }

  lemma {:induction false} VolumeOfPrefix(entries: seq<Entry>, i: nat)
    requires i <= |entries|
    ensures Volume(entries[..i]) <= Volume(entries)
    decreases |entries|
  {
    var n := |entries| - 1;
    if i <= n {
      assert entries[..n][..i] == entries[..i];
      VolumeOfPrefix(entries[..n], i);
    } else {
      assert entries[..i] == entries;
    }
  }

  /**
   * If the absolute amounts sum below 2^63, no addition or subtraction of the netting overflows: not
   * the running total of any BIC, nor the intermediate value when a BIC pays itself.
   */
  lemma {:induction false} NoOverflow(entries: seq<Entry>, i: nat, bic: string)
    requires Volume(entries) < TWO63 && i < |entries|
    ensures -TWO63 < Net(entries[..i + 1], bic) < TWO63
    ensures -TWO63 < Net(entries[..i], bic) - entries[i].amount < TWO63
  {
    var a: int := entries[i].amount;
    NetWithinVolume(entries[..i + 1], bic);
    NetWithinVolume(entries[..i], bic);
    VolumeOfPrefix(entries, i + 1);
    assert entries[..i + 1][..i] == entries[..i];
    assert Volume(entries[..i + 1]) == Volume(entries[..i]) + Abs(a);
  }

  function NetFor(bics: set<string>, entries: seq<Entry>): map<string, int> {
    map bic | bic in bics :: Net(entries, bic)
  }

  /** One entry takes its amount from one total and adds it to another. */
  lemma EntryMoves(bics: set<string>, before: seq<Entry>, e: Entry)
    requires e.sourceBIC in bics && e.destBIC in bics
    ensures var m := NetFor(bics, before);
            var mid := m[e.sourceBIC := m[e.sourceBIC] - e.amount];
            NetFor(bics, before + [e]) == mid[e.destBIC := mid[e.destBIC] + e.amount]
  {
    forall bic | bic in bics {
      NetAppend(before, e, bic);
    }
  }

  lemma EntryCancels(bics: set<string>, before: seq<Entry>, e: Entry)
    requires e.sourceBIC in bics && e.destBIC in bics
    ensures SumMap(NetFor(bics, before + [e])) == SumMap(NetFor(bics, before))
  {
    EntryMoves(bics, before, e);
    SumMapTransfer(NetFor(bics, before), e.sourceBIC, e.destBIC, e.amount);
  }

  /** Over any set of BICs that contains both ends of every entry, received and sent cancel. */
  lemma {:induction false} NetsCancel(bics: set<string>, entries: seq<Entry>)
    requires forall e :: e in entries ==> e.sourceBIC in bics && e.destBIC in bics
    ensures SumMap(NetFor(bics, entries)) == 0
    decreases |entries|
  {
    if entries == [] {
      AllZero(NetFor(bics, entries));
    } else {
      var n := |entries| - 1;
      assert entries == entries[..n] + [entries[n]];
      NetsCancel(bics, entries[..n]);
      EntryCancels(bics, entries[..n], entries[n]);
    }
  }

  lemma {:induction false} AllZero(m: map<string, int>)
    requires forall k :: k in m ==> m[k] == 0
    ensures SumMap(m) == 0
    decreases |m|
  {
    if m != map[] {
      var k :| k in m;
      SumMapPick(m, k);
      AllZero(m - {k});
    }
  }

  function AmountsOf(positions: seq<NetPosition>): seq<int> {
    seq(|positions|, i requires 0 <= i < |positions| => positions[i].amount)
  }

  /** A list of distinct keys that covers all non-zero values sums to the whole map. */
  lemma {:induction false} ListedSum(m: map<string, int>, positions: seq<NetPosition>)
    requires forall i, j :: 0 <= i < j < |positions| ==> positions[i].bic != positions[j].bic
    requires forall i :: 0 <= i < |positions| ==> positions[i].bic in m && positions[i].amount == m[positions[i].bic]
    requires forall k :: k in m && m[k] != 0 ==> exists i :: 0 <= i < |positions| && positions[i].bic == k
    ensures SumSeq(AmountsOf(positions)) == SumMap(m)
    decreases |positions|
  {
    if positions == [] {
      AllZero(m);
    } else {
      var n := |positions| - 1;
      var key, rest := positions[n].bic, positions[..n];
      SumMapPick(m, key);
      forall k | k in m - {key} && m[k] != 0
        ensures exists i :: 0 <= i < |rest| && rest[i].bic == k
      {
        var i :| 0 <= i < |positions| && positions[i].bic == k;
        assert rest[i].bic == k;
      }
      ListedSum(m - {key}, rest);
      assert AmountsOf(positions)[..n] == AmountsOf(rest);
    }
  }

  function BicsOf(entries: seq<Entry>): set<string> {
    (set e | e in entries :: e.sourceBIC) + (set e | e in entries :: e.destBIC)
  }

  lemma WrapSum(x: int, y: int, y': int)
    requires Wrap(y) == Wrap(y')
    ensures Wrap(Wrap(x) + y) == Wrap(x + y')
  {
    WrapAdd(x, y);
    WrapAdd(y, x);
    WrapAdd(y', x);
  }

  /** Wrapping the values of a map changes its sum by a multiple of 2^64. */
  lemma {:induction false} WrappedSum(m: map<string, int>, wrapped: map<string, int>)
    requires wrapped.Keys == m.Keys && forall k :: k in m ==> wrapped[k] == Wrap(m[k])
    ensures Wrap(SumMap(wrapped)) == Wrap(SumMap(m))
    decreases |m|
  {
    if m == map[] {
      assert wrapped == map[];
    } else {
      var k :| k in m;
      SumMapPick(m, k);
      SumMapPick(wrapped, k);
      WrappedSum(m - {k}, wrapped - {k});
      WrapTotals(m[k], SumMap(wrapped - {k}), SumMap(m - {k}), SumMap(wrapped), SumMap(m));
    }
  }

  lemma WrapTotals(x: int, rest: int, rest': int, total: int, total': int)
    requires Wrap(rest) == Wrap(rest') && total == Wrap(x) + rest && total' == x + rest'
    ensures Wrap(total) == Wrap(total')
  {
    WrapSum(x, rest, rest');
  }

  lemma PositionsAreTouched(entries: seq<Entry>, positions: seq<NetPosition>)
    requires Nets(entries, positions)
    ensures forall i :: 0 <= i < |positions| ==> positions[i].bic in BicsOf(entries)
  {
    forall i | 0 <= i < |positions|
      ensures positions[i].bic in BicsOf(entries)
    {
      var j :| 0 <= j < |entries| && Touches(entries[j], positions[i].bic);
      assert entries[j] in entries;
    }
  }

  /** In 64-bit arithmetic the positions of every batch sum to zero. */
  lemma PositionsSumToZeroModulo(entries: seq<Entry>, positions: seq<NetPosition>)
    requires Nets(entries, positions)
    ensures Wrap(SumSeq(AmountsOf(positions))) == 0
  {
    var bics := BicsOf(entries);
    var wrapped: map<string, int> := map bic | bic in bics :: Wrap(Net(entries, bic));
    PositionsAreTouched(entries, positions);
    NetsCancel(bics, entries);
    ListedSum(wrapped, positions);
    WrappedSum(NetFor(bics, entries), wrapped);
  }

  /** The positions of a batch that cannot overflow are exact and sum to zero. */
  lemma {:induction false} PositionsSumToZero(entries: seq<Entry>, positions: seq<NetPosition>)
    requires Nets(entries, positions) && Volume(entries) < TWO63
    ensures forall i :: 0 <= i < |positions| ==> positions[i].amount == Net(entries, positions[i].bic)
    ensures SumSeq(AmountsOf(positions)) == 0
  {
    var bics := BicsOf(entries);
    forall bic
      ensures Wrap(Net(entries, bic)) == Net(entries, bic)
    {
      NetWithinVolume(entries, bic);
    }
    PositionsAreTouched(entries, positions);
    NetsCancel(bics, entries);
    ListedSum(NetFor(bics, entries), positions);
  }

  // ------------------------------------------------------------ order does not matter

  lemma {:induction false} NetConcat(a: seq<Entry>, b: seq<Entry>, bic: string)
    ensures Net(a + b, bic) == Net(a, bic) + Net(b, bic)
    decreases |b|
  {
    if b == [] {
      assert a + b == a;
    } else {
      var n := |b| - 1;
      assert (a + b)[..|a + b| - 1] == a + b[..n];
      NetConcat(a, b[..n], bic);
    }
  }

  lemma {:induction false} NetRemove(s: seq<Entry>, j: nat, bic: string)
    requires j < |s|
    ensures Net(s, bic) == Net(s[..j] + s[j + 1..], bic) + Share(s[j], bic)
  {
    assert s == s[..j + 1] + s[j + 1..];
    NetConcat(s[..j + 1], s[j + 1..], bic);
    NetStep(s, j, bic);
    NetConcat(s[..j], s[j + 1..], bic);
  }

  lemma MultisetRemove(s: seq<Entry>, j: nat)
    requires j < |s|
    ensures multiset(s[..j] + s[j + 1..]) == multiset(s) - multiset{s[j]}
  {
    assert s == s[..j] + [s[j]] + s[j + 1..];
  }

  lemma {:induction false} NetOfPermutation(a: seq<Entry>, b: seq<Entry>, bic: string)
    requires multiset(a) == multiset(b)
    ensures Net(a, bic) == Net(b, bic)
    decreases |a|
  {
    if a == [] {
      assert |multiset(b)| == 0;
      assert b == [];
    } else {
      var n := |a| - 1;
      assert a[n] in multiset(b);
      var j :| 0 <= j < |b| && b[j] == a[n];
      MultisetRemove(a, n);
      MultisetRemove(b, j);
      assert a[..n] + a[n + 1..] == a[..n];
      NetOfPermutation(a[..n], b[..j] + b[j + 1..], bic);
      NetRemove(b, j, bic);
    }
  }

  function Pairs(positions: seq<NetPosition>): (pairs: seq<(string, int)>)
    ensures |pairs| == |positions|
    ensures forall i :: 0 <= i < |pairs| ==> pairs[i] == (positions[i].bic, positions[i].amount)
  {
    seq(|positions|, i requires 0 <= i < |positions| => (positions[i].bic, positions[i].amount as int))
  }

  lemma PairListed(a: seq<Entry>, p: seq<NetPosition>, b: seq<Entry>, q: seq<NetPosition>, i: nat)
    requires Nets(a, p) && Nets(b, q) && multiset(a) == multiset(b) && i < |p|
    ensures Pairs(p)[i] in Pairs(q)
  {
    var bic := p[i].bic;
    NetOfPermutation(a, b, bic);
    var j :| 0 <= j < |a| && Touches(a[j], bic);
    assert a[j] in multiset(a);
    assert a[j] in b && Listed(b, q, bic);
    var k :| 0 <= k < |q| && q[k].bic == bic;
    assert Pairs(q)[k] == Pairs(p)[i];
  }

  /** The netted BICs and amounts depend neither on the order of the entries nor on the map's iteration order. */
  lemma NettingIgnoresOrder(a: seq<Entry>, p: seq<NetPosition>, b: seq<Entry>, q: seq<NetPosition>)
    requires Nets(a, p) && Nets(b, q) && multiset(a) == multiset(b)
    ensures multiset(Pairs(p)) == multiset(Pairs(q))
  {
    forall x
      ensures multiset(Pairs(p))[x] == multiset(Pairs(q))[x]
    {
      CountDistinct(Pairs(p), x);
      CountDistinct(Pairs(q), x);
      if x in Pairs(p) {
        var i :| 0 <= i < |p| && Pairs(p)[i] == x;
        PairListed(a, p, b, q, i);
      }
      if x in Pairs(q) {
        var i :| 0 <= i < |q| && Pairs(q)[i] == x;
        PairListed(b, q, a, p, i);
      }
    }
  }

  lemma {:induction false} FirstCurrencyIsOne(entries: seq<Entry>, bic: string, currency: string)
    requires Touched(entries, bic) && forall e :: e in entries ==> e.currency == currency
    ensures FirstCurrency(entries, bic) == currency
    decreases |entries|
  {
    if !Touches(entries[0], bic) {
      var j :| 0 <= j < |entries| && Touches(entries[j], bic);
      assert Touches(entries[1..][j - 1], bic);
      FirstCurrencyIsOne(entries[1..], bic, currency);
    }
  }

  /** In a batch of one currency every position carries that currency. */
  lemma OneCurrencyLabels(entries: seq<Entry>, positions: seq<NetPosition>, currency: string)
    requires Nets(entries, positions) && forall e :: e in entries ==> e.currency == currency
    ensures forall i :: 0 <= i < |positions| ==> positions[i].currency == currency
  {
    forall i | 0 <= i < |positions|
      ensures positions[i].currency == currency
    {
      FirstCurrencyIsOne(entries, positions[i].bic, currency);
    }
  }
}
