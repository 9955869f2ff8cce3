/** Replay protection: a timestamp window in front of nonces that expire. */
module Replay {
  import opened Domain

  const MAX_AGE: int := 5 * MINUTE
  const MAX_AHEAD: int := MINUTE
  const NONCE_LIFE: int := 10 * MINUTE
  /** How long SetNX may lag behind the timestamp check without opening the door to a replay. */
  const LAG_LIMIT: int := NONCE_LIFE - MAX_AGE - MAX_AHEAD

  /** A store error, which may hit before or after the key was written. */
  datatype Fault = Healthy | FailsBeforeWrite | FailsAfterWrite

  /** One call of CheckReplay: the clock is read twice, at the check and when the store acts. */
  datatype Request = Request(participant: string, nonce: string, timestamp: int,
                             checkedAt: int, setAt: int, fault: Fault)

  datatype Verdict = Accepted | OutOfWindow | Replayed | StoreError

  function Key(participant: string, nonce: string): string {
    "nonce:" + participant + ":" + nonce
  }

  /** Keys by expiry time; a key counts as absent from its expiry on. */
  type Nonces = map<string, int>

  predicate Alive(store: Nonces, key: string, now: int) {
    key in store && now < store[key]
  }

  function SetIfAbsent(store: Nonces, key: string, now: int): Nonces {
    if Alive(store, key, now) then store else store[key := now + NONCE_LIFE]
  }

  function Check(store: Nonces, r: Request): (Nonces, Verdict) {
    var key := Key(r.participant, r.nonce);
    if r.checkedAt - r.timestamp > MAX_AGE || r.timestamp - r.checkedAt > MAX_AHEAD then (store, OutOfWindow)
    else if r.fault.FailsBeforeWrite? then (store, StoreError)
    else if r.fault.FailsAfterWrite? then (SetIfAbsent(store, key, r.setAt), StoreError)
    else (SetIfAbsent(store, key, r.setAt), if Alive(store, key, r.setAt) then Replayed else Accepted)
  }

  class NonceStore {
    var nonces: Nonces

    constructor ()
      ensures nonces == map[]
    {
      nonces := map[];
    }

    method SetNX(key: string, now: int, life: int) returns (ok: bool)
      modifies this
      ensures ok <==> !Alive(old(nonces), key, now)
      ensures nonces == if ok then old(nonces)[key := now + life] else old(nonces)
    {
      if key in nonces && now < nonces[key] {
        return false;
      }
      nonces := nonces[key := now + life];
      return true;
    }

    method CheckReplay(r: Request) returns (verdict: Verdict)
      modifies this
      ensures (nonces, verdict) == Check(old(nonces), r)
    {
      if r.checkedAt - r.timestamp > MAX_AGE || r.timestamp - r.checkedAt > MAX_AHEAD {
        return OutOfWindow;
      }
      if r.fault.FailsBeforeWrite? {
        return StoreError;
      }
      var ok := SetNX(Key(r.participant, r.nonce), r.setAt, NONCE_LIFE);
      if r.fault.FailsAfterWrite? {
        return StoreError;
      }
      if !ok {
        return Replayed;
      }
      return Accepted;
    }
  }

  // ------------------------------------------------------------ whole runs

  /** The store after the first k requests, from any starting store. */
  function After(store: Nonces, requests: seq<Request>, k: nat): Nonces
    requires k <= |requests|
  {
    if k == 0 then store else Check(After(store, requests, k - 1), requests[k - 1]).0
  }

  function VerdictOf(store: Nonces, requests: seq<Request>, k: nat): Verdict
    requires k < |requests|
  {
    Check(After(store, requests, k), requests[k]).1
  }

  /** One clock: the store acts in the order of its clock. */
  predicate Clocked(requests: seq<Request>) {
    forall i, j :: 0 <= i < j < |requests| ==> requests[i].setAt <= requests[j].setAt
  }

  /** Once accepted, a key stays at least one nonce life, however often it is asked for. */
  lemma {:induction false} KeyStays(store: Nonces, requests: seq<Request>, i: nat, k: nat)
    requires Clocked(requests) && i < k <= |requests| && VerdictOf(store, requests, i) == Accepted
    ensures var key := Key(requests[i].participant, requests[i].nonce);
            key in After(store, requests, k) && After(store, requests, k)[key] >= requests[i].setAt + NONCE_LIFE
    decreases k
  {
    if k > i + 1 {
      KeyStays(store, requests, i, k - 1);
    }
  }

  /**
   * In any run on a monotone clock, whatever the store held before and whatever fails, the same
   * participant, nonce and timestamp are accepted at most once, provided the first of the two was checked
   * before it was stored and SetNX of the second lags its check by less than four minutes; the lag of all
   * other requests is free. More generally at most one request per key and timestamp is accepted.
   */
  lemma AcceptedAtMostOnce(store: Nonces, requests: seq<Request>, i: nat, j: nat)
    requires Clocked(requests) && i < j < |requests|
    requires requests[i].checkedAt <= requests[i].setAt
    requires requests[j].setAt < requests[j].checkedAt + LAG_LIMIT
    requires Key(requests[i].participant, requests[i].nonce) == Key(requests[j].participant, requests[j].nonce)
    requires requests[i].timestamp == requests[j].timestamp
    ensures !(VerdictOf(store, requests, i) == Accepted && VerdictOf(store, requests, j) == Accepted)
  {
    if VerdictOf(store, requests, i) == Accepted {
      KeyStays(store, requests, i, j);
    }
  }

  /** Four minutes is the exact limit: a second request that lags by just that much lets a replay through. */
  lemma LagLimitIsSharp(participant: string, nonce: string, timestamp: int)
    ensures var early, late := timestamp - MAX_AHEAD, timestamp + MAX_AGE;
            var requests := [Request(participant, nonce, timestamp, early, early, Healthy),
                             Request(participant, nonce, timestamp, late, late + LAG_LIMIT, Healthy)];
            && Clocked(requests)
            && VerdictOf(map[], requests, 0) == Accepted && VerdictOf(map[], requests, 1) == Accepted
  {
    var early, late := timestamp - MAX_AHEAD, timestamp + MAX_AGE;
    var requests := [Request(participant, nonce, timestamp, early, early, Healthy),
                     Request(participant, nonce, timestamp, late, late + LAG_LIMIT, Healthy)];
    assert After(map[], requests, 0) == map[];
    assert After(map[], requests, 1) == map[Key(participant, nonce) := early + NONCE_LIFE];
  }

  // ------------------------------------------------------------ what is accepted

  /** Where the participant's name ends in its key, that of a longer name goes on. */
  lemma KeysPart(p: string, nonce: string, p': string, nonce': string)
    requires |p| < |p'|
    ensures var k, k' := Key(p, nonce), Key(p', nonce');
            |k| > 6 + |p| && |k'| > 6 + |p| && k[6 + |p|] == ':' && k'[6 + |p|] == p'[|p|]
  {
  }

  lemma KeyParts(p: string, nonce: string)
    ensures var k := Key(p, nonce);
            |k| >= 7 + |p| && k[6..6 + |p|] == p && k[7 + |p|..] == nonce
  {
  }

  /** Keys of participants without a colon are equal only for the same participant and nonce. */
  lemma {:induction false} KeysDiffer(p: string, nonce: string, p': string, nonce': string)
    requires ':' !in p && ':' !in p'
    ensures Key(p, nonce) == Key(p', nonce') <==> p == p' && nonce == nonce'
  {
    if |p| < |p'| {
      KeysPart(p, nonce, p', nonce');
    } else if |p'| < |p| {
      KeysPart(p', nonce', p, nonce);
    } else {
      KeyParts(p, nonce);
      KeyParts(p', nonce');
    }
  }

  /** With a colon in its name one participant can use up the nonce of another. */
  lemma ColonSharesKeys()
    ensures Key("a:b", "c") == Key("a", "b:c")
  {
    assert Key("a:b", "c") == "nonce:a:b:c" == Key("a", "b:c");
  }

  predicate InWindow(r: Request) {
    r.checkedAt - r.timestamp <= MAX_AGE && r.timestamp - r.checkedAt <= MAX_AHEAD
  }

  /** The same participant and nonce, up to where a colon between them stands. */
  predicate SameNonce(r: Request, r': Request) {
    r.participant + ":" + r.nonce == r'.participant + ":" + r'.nonce
  }

  lemma {:induction false} SameNonceIsSameKey(r: Request, r': Request)
    ensures SameNonce(r, r') <==> Key(r.participant, r.nonce) == Key(r'.participant, r'.nonce)
    ensures ':' !in r.participant && ':' !in r'.participant ==>
              (SameNonce(r, r') <==> r.participant == r'.participant && r.nonce == r'.nonce)
  {
    var s, s' := r.participant + ":" + r.nonce, r'.participant + ":" + r'.nonce;
    assert Key(r.participant, r.nonce) == "nonce:" + s && Key(r'.participant, r'.nonce) == "nonce:" + s';
    assert ("nonce:" + s)[6..] == s && ("nonce:" + s')[6..] == s';
    if ':' !in r.participant && ':' !in r'.participant {
      KeysDiffer(r.participant, r.nonce, r'.participant, r'.nonce);
    }
  }

  /** Request i has written its key: it was in its window, its write took place and the key was not alive. */
  predicate Stores(requests: seq<Request>, i: nat)
    requires i < |requests|
  {
    && InWindow(requests[i]) && !requests[i].fault.FailsBeforeWrite?
    && !Alive(After(map[], requests, i), Key(requests[i].participant, requests[i].nonce), requests[i].setAt)
  }

  /** Every write of a nonce counts for at least its full life. */
  lemma {:induction false} WritesCount(requests: seq<Request>, k: nat, i: nat)
    requires Clocked(requests) && i < k <= |requests| && Stores(requests, i)
    ensures var key := Key(requests[i].participant, requests[i].nonce);
            key in After(map[], requests, k) && After(map[], requests, k)[key] >= requests[i].setAt + NONCE_LIFE
    decreases k
  {
    if k > i + 1 {
      WritesCount(requests, k - 1, i);
    }
  }

  /** Every key in the store was written by an earlier request with the same nonce. */
  lemma {:induction false} KeysWereWritten(requests: seq<Request>, k: nat, r: Request) returns (i: nat)
    requires k <= |requests|
    requires Key(r.participant, r.nonce) in After(map[], requests, k)
    ensures i < k && SameNonce(requests[i], r) && Stores(requests, i)
    ensures After(map[], requests, k)[Key(r.participant, r.nonce)] == requests[i].setAt + NONCE_LIFE
    decreases k
  {
    var last := requests[k - 1];
    SameNonceIsSameKey(last, r);
    if SameNonce(last, r) && Stores(requests, k - 1) {
      i := k - 1;
    } else {
      i := KeysWereWritten(requests, k - 1, r);
    }
  }

  /** An earlier request with this nonce has written it less than its life ago. */
  ghost predicate UsedUp(requests: seq<Request>, k: nat)
    requires k < |requests|
  {
    exists i :: 0 <= i < k && SameNonce(requests[i], requests[k]) && Stores(requests, i)
                && requests[k].setAt < requests[i].setAt + NONCE_LIFE
  }

  /**
   * Nothing else is refused: on a monotone clock and from an empty store, a request in its window whose store
   * call does not fail is accepted if and only if no earlier request has written the same nonce of the same
   * participant less than ten minutes before; of names with a colon in them see SameNonceIsSameKey.
   */
  lemma {:induction false} AcceptedIff(requests: seq<Request>, k: nat)
    requires Clocked(requests) && k < |requests|
    requires InWindow(requests[k]) && requests[k].fault.Healthy?
    ensures VerdictOf(map[], requests, k) == Accepted <==> !UsedUp(requests, k)
  {
    var r := requests[k];
    var key := Key(r.participant, r.nonce);
    if Alive(After(map[], requests, k), key, r.setAt) {
      var i := KeysWereWritten(requests, k, r);
      assert UsedUp(requests, k);
    } else if UsedUp(requests, k) {
      var i :| 0 <= i < k && SameNonce(requests[i], r) && Stores(requests, i)
               && r.setAt < requests[i].setAt + NONCE_LIFE;
      SameNonceIsSameKey(requests[i], r);
      WritesCount(requests, k, i);
    }
  }
}
