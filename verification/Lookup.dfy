/** Bank lookup with a cache in front: how stale an answer can be. */
module Lookup {
  import opened Domain

  const CACHE_LIFE: int := 5 * MINUTE

  datatype BankInfo = BankInfo(bic: string, name: string, country: string, supported: seq<string>, routingInfo: string)

  datatype Registration = Registration(at: int, info: BankInfo)

  /** A cached answer, when it was read from the map, and when it stops being served. */
  datatype Cached = Cached(info: BankInfo, readAt: int, expires: int)

  /** A lookup that has read the map and not yet returned. */
  datatype Reading = Reading(bic: string, info: BankInfo, readAt: int)

  datatype Answer = Answer(at: int, bic: string, info: BankInfo)

  /**
   * The service and its cache. `seeds` is the map it started with, `registrations` every later
   * Register in order; the read times in the cache and the list of answers are for specification.
   */
  datatype State = State(banks: map<string, BankInfo>, cache: map<string, Cached>, readings: seq<Reading>,
                         seeds: map<string, BankInfo>, registrations: seq<Registration>,
                         answers: seq<Answer>, now: int)

  /** The atomic moves of concurrent Lookups and Registers, each at a time of one clock. */
  datatype Event =
    | Register(at: int, info: BankInfo)
    | Hit(at: int, bic: string)                  // the cache serves the answer
    | Read(at: int, bic: string)                 // cache miss, cache error or no cache: read the map
    | Fill(at: int, slot: nat)                   // write the value just read to the cache, unless that fails
    | Return(at: int, slot: nat)
    | Evict(at: int, bic: string)                // the cache may drop a key at any time

  function Opened(seeds: map<string, BankInfo>, now: int): State {
    State(seeds, map[], [], seeds, [], [], now)
  }

  function Step(s: State, e: Event): State {
    match e
    case Register(at, info) =>
      s.(banks := s.banks[info.bic := info], registrations := s.registrations + [Registration(at, info)], now := at)
    case Hit(at, bic) =>
      if bic in s.cache && at < s.cache[bic].expires
      then s.(answers := s.answers + [Answer(at, bic, s.cache[bic].info)], now := at)
      else s.(now := at)
    case Read(at, bic) =>
      if bic in s.banks then s.(readings := s.readings + [Reading(bic, s.banks[bic], at)], now := at)
      else s.(now := at)
    case Fill(at, slot) =>
      if slot >= |s.readings| then s.(now := at)
      else
        var r := s.readings[slot];
        s.(cache := s.cache[r.bic := Cached(r.info, r.readAt, at + CACHE_LIFE)], now := at)
    case Return(at, slot) =>
      if slot >= |s.readings| then s.(now := at)
      else
        var r := s.readings[slot];
        s.(readings := s.readings[..slot] + s.readings[slot + 1..],
           answers := s.answers + [Answer(at, r.bic, r.info)], now := at)
    case Evict(at, bic) => s.(cache := s.cache - {bic}, now := at)
  }

  function Steps(s: State, events: seq<Event>): State {
    if events == [] then s else Step(Steps(s, events[..|events| - 1]), events[|events| - 1])
  }

  /** Time never goes back, and no lookup takes longer than `gap` from reading the map to returning. */
  predicate Timely(s: State, e: Event, gap: int) {
    && s.now <= e.at
    && ((e.Fill? || e.Return?) && e.slot < |s.readings| ==> e.at <= s.readings[e.slot].readAt + gap)
  }

  predicate AllTimely(s: State, events: seq<Event>, gap: int) {
    events != [] ==>
      && AllTimely(s, events[..|events| - 1], gap)
      && Timely(Steps(s, events[..|events| - 1]), events[|events| - 1], gap)
  }

  // ------------------------------------------------------------ what was registered when

  function Latest(seeds: map<string, BankInfo>, log: seq<Registration>, bic: string): Option<BankInfo> {
    if log == [] then if bic in seeds then Some(seeds[bic]) else None
    else if log[|log| - 1].info.bic == bic then Some(log[|log| - 1].info)
    else Latest(seeds, log[..|log| - 1], bic)
  }

  /** After k registrations `info` was the registered value, and time t fell between registrations k-1 and k. */
  predicate HeldAfter(s: State, bic: string, info: BankInfo, t: int, k: nat) {
    && k <= |s.registrations|
    && Latest(s.seeds, s.registrations[..k], bic) == Some(info)
    && (k > 0 ==> s.registrations[k - 1].at <= t)
    && (k < |s.registrations| ==> t <= s.registrations[k].at)
  }

  /** `info` was the registered value of `bic` at some moment of time t. */
  ghost predicate HeldAt(s: State, bic: string, info: BankInfo, t: int) {
    exists k: nat :: HeldAfter(s, bic, info, t, k)
  }

  /** An answer is fresh if it was the registered value less than `span` before it was given. */
  ghost predicate Fresh(s: State, a: Answer, span: int) {
    exists t :: a.at - span < t <= a.at && HeldAt(s, a.bic, a.info, t)
  }

  /** The map is what the registrations made of it, and they are in clock order. */
  ghost predicate RegistryInv(s: State) {
    && (forall bic :: bic in s.banks ==> Latest(s.seeds, s.registrations, bic) == Some(s.banks[bic]))
    && (forall bic :: Latest(s.seeds, s.registrations, bic).Some? ==> bic in s.banks)
    && (forall i :: 0 <= i < |s.registrations| ==> s.registrations[i].at <= s.now)
    && (forall i, j :: 0 <= i < j < |s.registrations| ==> s.registrations[i].at <= s.registrations[j].at)
  }

  ghost predicate Inv(s: State, gap: int) {
    && RegistryInv(s)
    && (forall i :: 0 <= i < |s.readings| ==> ReadingInv(s, s.readings[i]))
    && (forall bic :: bic in s.cache ==> CachedInv(s, bic, s.cache[bic], gap))
    && (forall i :: 0 <= i < |s.answers| ==> AnswerInv(s, s.answers[i], gap))
  }

  ghost predicate ReadingInv(s: State, r: Reading) {
    r.readAt <= s.now && HeldAt(s, r.bic, r.info, r.readAt)
  }

  ghost predicate CachedInv(s: State, bic: string, c: Cached, gap: int) {
    c.readAt <= s.now && c.expires <= c.readAt + gap + CACHE_LIFE && HeldAt(s, bic, c.info, c.readAt)
  }

  ghost predicate AnswerInv(s: State, a: Answer, gap: int) {
    a.at <= s.now && Fresh(s, a, CACHE_LIFE + gap)
  }

  /** The two states differ at most in registrations added at or after s.now. */
  predicate Extends(s: State, s': State) {
    && s'.seeds == s.seeds && s.now <= s'.now
    && |s.registrations| <= |s'.registrations|
    && s'.registrations[..|s.registrations|] == s.registrations
    && forall i :: |s.registrations| <= i < |s'.registrations| ==> s.now <= s'.registrations[i].at
  }

  lemma HeldStaysHeld(s: State, s': State, bic: string, info: BankInfo, t: int)
    requires Extends(s, s') && HeldAt(s, bic, info, t) && t <= s.now
    ensures HeldAt(s', bic, info, t)
  {
    var k: nat :| HeldAfter(s, bic, info, t, k);
    assert s'.registrations[..k] == s.registrations[..k];
    assert HeldAfter(s', bic, info, t, k);
  }

  lemma ParentsKept(s: State, s': State, gap: int)
    requires Inv(s, gap) && Extends(s, s')
    ensures forall i :: 0 <= i < |s.readings| ==> ReadingInv(s', s.readings[i])
    ensures forall bic :: bic in s.cache ==> CachedInv(s', bic, s.cache[bic], gap)
    ensures forall i :: 0 <= i < |s.answers| ==> AnswerInv(s', s.answers[i], gap)
  {
    forall i | 0 <= i < |s.readings|
      ensures ReadingInv(s', s.readings[i])
    {
      HeldStaysHeld(s, s', s.readings[i].bic, s.readings[i].info, s.readings[i].readAt);
    }
    forall bic | bic in s.cache
      ensures CachedInv(s', bic, s.cache[bic], gap)
    {
      HeldStaysHeld(s, s', bic, s.cache[bic].info, s.cache[bic].readAt);
    }
    forall i | 0 <= i < |s.answers|
      ensures AnswerInv(s', s.answers[i], gap)
    {
      var a := s.answers[i];
      assert AnswerInv(s, a, gap);
      var t :| a.at - (CACHE_LIFE + gap) < t <= a.at && HeldAt(s, a.bic, a.info, t);
      HeldStaysHeld(s, s', a.bic, a.info, t);
    }
  }

  lemma {:induction false} BanksAfterRegister(s: State, at: int, info: BankInfo, bic: string)
    ensures Latest(s.seeds, s.registrations + [Registration(at, info)], bic)
         == if info.bic == bic then Some(info) else Latest(s.seeds, s.registrations, bic)
  {
    assert (s.registrations + [Registration(at, info)])[..|s.registrations|] == s.registrations;
  }

  lemma StepKeepsRegistry(s: State, e: Event, gap: int)
    requires RegistryInv(s) && Timely(s, e, gap)
    ensures RegistryInv(Step(s, e)) && Extends(s, Step(s, e))
  {
    if e.Register? {
      forall bic {
        BanksAfterRegister(s, e.at, e.info, bic);
      }
    }
  }

  lemma HitKeepsInv(s: State, at: int, bic: string, gap: int)
    requires Inv(s, gap) && s.now <= at && bic in s.cache && at < s.cache[bic].expires
    ensures Inv(Step(s, Hit(at, bic)), gap)
  {
    var s', c := Step(s, Hit(at, bic)), s.cache[bic];
    StepKeepsRegistry(s, Hit(at, bic), gap);
    ParentsKept(s, s', gap);
    assert CachedInv(s', bic, c, gap);
    assert Fresh(s', Answer(at, bic, c.info), CACHE_LIFE + gap);
  }

  lemma ReadKeepsInv(s: State, at: int, bic: string, gap: int)
    requires Inv(s, gap) && s.now <= at && bic in s.banks
    ensures Inv(Step(s, Read(at, bic)), gap)
  {
    var s' := Step(s, Read(at, bic));
    StepKeepsRegistry(s, Read(at, bic), gap);
    ParentsKept(s, s', gap);
    assert s.registrations[..|s.registrations|] == s.registrations;
    assert HeldAfter(s', bic, s.banks[bic], at, |s.registrations|);
  }

  lemma FillKeepsInv(s: State, at: int, slot: nat, gap: int)
    requires Inv(s, gap) && Timely(s, Fill(at, slot), gap) && 0 <= gap && slot < |s.readings|
    ensures Inv(Step(s, Fill(at, slot)), gap)
  {
    var s', r := Step(s, Fill(at, slot)), s.readings[slot];
    StepKeepsRegistry(s, Fill(at, slot), gap);
    ParentsKept(s, s', gap);
    assert ReadingInv(s', r);
  }

  lemma ReturnKeepsInv(s: State, at: int, slot: nat, gap: int)
    requires Inv(s, gap) && Timely(s, Return(at, slot), gap) && 0 <= gap && slot < |s.readings|
    ensures Inv(Step(s, Return(at, slot)), gap)
  {
    var s', r := Step(s, Return(at, slot)), s.readings[slot];
    StepKeepsRegistry(s, Return(at, slot), gap);
    ParentsKept(s, s', gap);
    assert ReadingInv(s', r);
    assert Fresh(s', Answer(at, r.bic, r.info), CACHE_LIFE + gap);
  }

  /** Every move of every lookup keeps the freshness of all answers given and all values still in flight. */
  lemma StepKeepsInv(s: State, e: Event, gap: int)
    requires Inv(s, gap) && Timely(s, e, gap) && 0 <= gap
    ensures Inv(Step(s, e), gap)
  {
    StepKeepsRegistry(s, e, gap);
    if e.Hit? && e.bic in s.cache && e.at < s.cache[e.bic].expires {
      HitKeepsInv(s, e.at, e.bic, gap);
    } else if e.Read? && e.bic in s.banks {
      ReadKeepsInv(s, e.at, e.bic, gap);
    } else if e.Fill? && e.slot < |s.readings| {
      FillKeepsInv(s, e.at, e.slot, gap);
    } else if e.Return? && e.slot < |s.readings| {
      ReturnKeepsInv(s, e.at, e.slot, gap);
    } else {
      ParentsKept(s, Step(s, e), gap);
    }
  }

  lemma {:induction false} StepsKeepInv(seeds: map<string, BankInfo>, start: int, events: seq<Event>, gap: int)
    requires AllTimely(Opened(seeds, start), events, gap) && 0 <= gap
    ensures Inv(Steps(Opened(seeds, start), events), gap)
    decreases |events|
  {
    if events != [] {
      StepsKeepInv(seeds, start, events[..|events| - 1], gap);
      StepKeepsInv(Steps(Opened(seeds, start), events[..|events| - 1]), events[|events| - 1], gap);
    }
  }

  lemma {:induction false} LatestUnchanged(seeds: map<string, BankInfo>, log: seq<Registration>, k: nat, bic: string)
    requires k <= |log| && forall i :: k <= i < |log| ==> log[i].info.bic != bic
    ensures Latest(seeds, log, bic) == Latest(seeds, log[..k], bic)
    decreases |log|
  {
    if k < |log| {
      LatestUnchanged(seeds, log[..|log| - 1], k, bic);
      assert log[..|log| - 1][..k] == log[..k];
    } else {
      assert log[..k] == log;
    }
  }

  /** `bic` was not registered after time t. */
  predicate Unregistered(s: State, bic: string, t: int) {
    forall j :: 0 <= j < |s.registrations| && t < s.registrations[j].at ==> s.registrations[j].info.bic != bic
  }

  lemma FreshIsCurrent(s: State, a: Answer, span: int)
    requires RegistryInv(s) && Fresh(s, a, span) && Unregistered(s, a.bic, a.at - span)
    ensures a.bic in s.banks && s.banks[a.bic] == a.info
  {
    var t :| a.at - span < t <= a.at && HeldAt(s, a.bic, a.info, t);
    var k: nat :| HeldAfter(s, a.bic, a.info, t, k);
    forall j | k <= j < |s.registrations|
      ensures s.registrations[j].info.bic != a.bic
    {
      assert s.registrations[k].at <= s.registrations[j].at;
    }
    LatestUnchanged(s.seeds, s.registrations, k, a.bic);
  }

  /**
   * Over every interleaving of lookups, registrations and expiry: each answer was the registered
   * value of its BIC less than five minutes plus the read-to-return gap before it was given, and it
   * is the value in the map if that BIC was not registered again in that span.
   */
  lemma {:induction false} AnswersAreFresh(seeds: map<string, BankInfo>, start: int, events: seq<Event>, gap: int,
                                           i: nat)
    requires AllTimely(Opened(seeds, start), events, gap) && 0 <= gap
    requires i < |Steps(Opened(seeds, start), events).answers|
    ensures var s := Steps(Opened(seeds, start), events);
            var a, span := s.answers[i], CACHE_LIFE + gap;
            && Fresh(s, a, span)
            && (Unregistered(s, a.bic, a.at - span) ==> a.bic in s.banks && s.banks[a.bic] == a.info)
  {
    StepsKeepInv(seeds, start, events, gap);
    var s := Steps(Opened(seeds, start), events);
    assert AnswerInv(s, s.answers[i], gap);
    if Unregistered(s, s.answers[i].bic, s.answers[i].at - (CACHE_LIFE + gap)) {
      FreshIsCurrent(s, s.answers[i], CACHE_LIFE + gap);
    }
  }

  /** The Register calls among the moves, in order. */
  function RegistrationsIn(events: seq<Event>): seq<Registration> {
    if events == [] then []
    else
      var n := |events| - 1;
      var before := RegistrationsIn(events[..n]);
      match events[n] case Register(at, info) => before + [Registration(at, info)] case _ => before
  }

  /**
   * The registered values that freshness speaks of are those of the Register calls, and the map holds for
   * each BIC the last of them, or what it started with.
   */
  lemma {:induction false} RegistryFollowsCalls(seeds: map<string, BankInfo>, start: int, events: seq<Event>)
    ensures var s := Steps(Opened(seeds, start), events);
            && s.seeds == seeds && s.registrations == RegistrationsIn(events)
            && (forall bic :: bic in s.banks ==> Latest(seeds, RegistrationsIn(events), bic) == Some(s.banks[bic]))
            && (forall bic :: bic !in s.banks ==> Latest(seeds, RegistrationsIn(events), bic) == None)
    decreases |events|
  {
    if events != [] {
      var n := |events| - 1;
      var s := Steps(Opened(seeds, start), events[..n]);
      RegistryFollowsCalls(seeds, start, events[..n]);
      if events[n].Register? {
        forall bic {
          BanksAfterRegister(s, events[n].at, events[n].info, bic);
        }
      }
    }
  }

  // ------------------------------------------------------------ the service object

  class Service {
    var banks: map<string, BankInfo>
    var cache: map<string, Cached>
    ghost const seeds: map<string, BankInfo>
    ghost var registrations: seq<Registration>
    ghost var answers: seq<Answer>
    ghost var now: int

    ghost function Contents(): State
      reads this
    {
      State(banks, cache, [], seeds, registrations, answers, now)
    }

    constructor (seeds: map<string, BankInfo>, now: int)
      ensures Contents() == Opened(seeds, now)
    {
      banks, cache := seeds, map[];
      this.seeds := seeds;
      registrations, answers, this.now := [], [], now;
    }

    method RegisterBank(info: BankInfo, at: int)
      modifies this
      ensures Contents() == Step(old(Contents()), Register(at, info))
      ensures banks == old(banks)[info.bic := info] && cache == old(cache)
      ensures registrations == old(registrations) + [Registration(at, info)] && answers == old(answers)
    {
      banks := banks[info.bic := info];
      registrations, now := registrations + [Registration(at, info)], at;
    }

    /** One lookup on its own: `cached` and `stored` say whether the cache answers and accepts writes. */
    method LookupBank(bic: string, at: int, readAt: int, storedAt: int, returnAt: int, cached: bool, stored: bool)
      returns (found: Option<BankInfo>)
      modifies this
      ensures Contents() ==
              if cached && bic in old(cache) && at < old(cache)[bic].expires
              then Step(old(Contents()), Hit(at, bic))
              else
                var read := Step(old(Contents()), Read(readAt, bic));
                if bic !in old(banks) then read
                else Step(if stored then Step(read, Fill(storedAt, 0)) else read, Return(returnAt, 0))
      ensures found == if cached && bic in old(cache) && at < old(cache)[bic].expires then Some(old(cache)[bic].info)
                       else if bic in old(banks) then Some(old(banks)[bic])
                       else None
      ensures cache == if stored && bic in old(banks) && !(cached && bic in old(cache) && at < old(cache)[bic].expires)
                       then old(cache)[bic := Cached(old(banks)[bic], readAt, storedAt + CACHE_LIFE)]
                       else old(cache)
      ensures banks == old(banks) && registrations == old(registrations)
      ensures found.Some? ==> answers == old(answers) + [Answer(now, bic, found.value)]
      ensures found.None? ==> answers == old(answers) && bic !in old(banks)
    {
      if cached && bic in cache && at < cache[bic].expires {
        answers, now := answers + [Answer(at, bic, cache[bic].info)], at;
        return Some(cache[bic].info);
      }
      if bic !in banks {
        now := readAt;
        return None;
      }
      var info := banks[bic];
      if stored {
        cache := cache[bic := Cached(info, readAt, storedAt + CACHE_LIFE)];
      }
      answers, now := answers + [Answer(returnAt, bic, info)], returnAt;
      return Some(info);
    }
  }
}
