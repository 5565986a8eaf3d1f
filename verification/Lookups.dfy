/** Lookup counters of both levels under concurrent Gets, warming and Clears that may fail on either level
    (internal/cache/manager.go, bigcache.go, redis_cache.go, warmer.go). */
module Lookups {
  import opened Entries
  import L1 = BigCache
  import L2 = RedisCache

  /** A Get with the empty key looks nowhere. */
  type LookupKey = k: Key | k != "" witness "k"

  /** The lookups in flight: Gets before their L1 look, Gets that missed L1, warmer reads of L2. */
  datatype State = State(
    l1: L1.Level, l2: L2.Level,
    entering: seq<LookupKey>, missed: seq<LookupKey>, warming: seq<LookupKey>)

  const START := State(L1.EMPTY, L2.EMPTY, [], [], [])

  datatype Event =
    | CallGet(key: Key)
    | CallWarmRead(missing: LookupKey)             // the warmer did not find the key in L1
    | LookL1(i: nat, now: int, io: Io)             // the i-th of those in flight, whichever that is
    | LookL2(i: nat, a: L2.Access, io: Io)
    | WarmL2(i: nat, a: L2.Access, io: Io)
    | WriteL1(key: Key, value: Value, ttl: int, now: int, io: Io)
    | WriteL2(key: Key, value: Value, ttl: int, now: int, io: Io)
    | DeleteL1(key: Key, io: Io)
    | DeleteL2(key: Key, now: int, io: Io)
    | Lose(key: Key)                               // eviction from either level
    | ClearL1                                      // a Clear succeeds on L1
    | ClearL2(now: int)                            // a Clear succeeds on L2

  predicate Enabled(s: State, e: Event) {
    match e
    case LookL1(i, _, _) => i < |s.entering|
    case LookL2(i, _, _) => i < |s.missed|
    case WarmL2(i, _, _) => i < |s.warming|
    case _ => true
  }

  function InFlight2(s: State): nat { |s.missed| + |s.warming| }

  predicate Quiet(s: State) {
    |s.entering| + InFlight2(s) == 0
  }

  function Without(keys: seq<LookupKey>, i: nat): seq<LookupKey>
    requires i < |keys|
  {
    keys[..i] + keys[i + 1..]
  }

  function ClearedL2(l: L2.Level, now: int): L2.Level {
    L2.Level(l.store - L2.Matching(l.store, now, _ => true), NO_COUNTS)
  }

  /** A look into L1 that does not answer. */
  predicate Misses(s: State, e: Event) {
    e.LookL1? && e.i < |s.entering| && L1.GetAnswer(s.l1, s.entering[e.i], e.now, e.io).Err?
  }

  function Next(s: State, e: Event): State
    requires Enabled(s, e)
  {
    match e
    case CallGet(k) => if k == "" then s else s.(entering := s.entering + [k])
    case CallWarmRead(k) => s.(warming := s.warming + [k])
    case LookL1(i, now, io) =>
      var k := s.entering[i];
      var s' := s.(l1 := L1.AfterGet(s.l1, k, now, io), entering := Without(s.entering, i));
      if Misses(s, e) then s'.(missed := s.missed + [k]) else s'
    case LookL2(i, a, io) =>
      s.(l2 := L2.AfterGet(s.l2, s.missed[i], a, io), missed := Without(s.missed, i))
    case WarmL2(i, a, io) =>
      s.(l2 := L2.AfterGet(s.l2, s.warming[i], a, io), warming := Without(s.warming, i))
    case WriteL1(k, v, ttl, now, io) => s.(l1 := L1.AfterSet(s.l1, k, v, ttl, now, io))
    case WriteL2(k, v, ttl, now, io) => s.(l2 := L2.AfterSet(s.l2, k, v, ttl, now, io))
    case DeleteL1(k, io) => s.(l1 := L1.AfterDelete(s.l1, k, io))
    case DeleteL2(k, now, io) => s.(l2 := L2.AfterDelete(s.l2, k, now, io))
    case Lose(k) =>
      s.(l1 := s.l1.(entries := s.l1.entries - {k}), l2 := s.l2.(store := s.l2.store - {k}))
    case ClearL1 => s.(l1 := L1.AfterClear(s.l1, HEALTHY))
    case ClearL2(now) => s.(l2 := ClearedL2(s.l2, now))
  }

  function Run(events: seq<Event>): Option<State> {
    if events == [] then Some(START)
    else
      match Run(events[..|events| - 1])
      case None => None
      case Some(s) => if Enabled(s, events[|events| - 1]) then Some(Next(s, events[|events| - 1])) else None
  }

  // ----- What the levels were asked, read off the run -----

  /** Each level starts to count anew when it is cleared; lookups in flight then are still to be counted. */
  datatype Asked = Asked(l1: nat, l1Missed: nat, l2: nat)

  function MoreAsked(asked: Asked, s: State, e: Event): Asked {
    match e
    case CallGet(k) => if k == "" then asked else asked.(l1 := asked.l1 + 1)
    case CallWarmRead(_) => asked.(l2 := asked.l2 + 1)
    case LookL1(_, _, _) =>
      if Misses(s, e) then asked.(l1Missed := asked.l1Missed + 1, l2 := asked.l2 + 1) else asked
    case ClearL1 => asked.(l1 := |s.entering|, l1Missed := 0)
    case ClearL2(_) => asked.(l2 := InFlight2(s))
    case _ => asked
  }

  /** Since its last clearing: the Gets L1 was asked for and the misses of L1, and the L1 misses and warmer
      reads that L2 was asked for. */
  function AskedOf(events: seq<Event>): Asked
    requires Run(events).Some?
  {
    if events == [] then Asked(0, 0, 0)
    else
      var before := events[..|events| - 1];
      MoreAsked(AskedOf(before), Run(before).value, events[|events| - 1])
  }

  lemma LookCountsOnceL1(l: L1.Level, k: Key, now: int, io: Io)
    requires k != ""
    ensures
      var c, c' := l.counters, L1.AfterGet(l, k, now, io).counters;
      && LookupCount(c') == LookupCount(c) + 1
      && c'.misses == c.misses + if L1.GetAnswer(l, k, now, io).Ok? then 0 else 1
  {
  }

  lemma LookCountsOnceL2(l: L2.Level, k: Key, a: L2.Access, io: Io)
    requires k != ""
    ensures LookupCount(L2.AfterGet(l, k, a, io).counters) == LookupCount(l.counters) + 1
  {
  }

  /** Counted plus in flight is asked for. */
  predicate Balanced(s: State, asked: Asked) {
    && LookupCount(s.l1.counters) + |s.entering| == asked.l1
    && s.l1.counters.misses == asked.l1Missed
    && LookupCount(s.l2.counters) + InFlight2(s) == asked.l2
  }

  lemma LookKeepsBalance(s: State, e: Event, asked: Asked)
    requires Balanced(s, asked) && Enabled(s, e)
    requires e.LookL1? || e.LookL2? || e.WarmL2?
    ensures Balanced(Next(s, e), MoreAsked(asked, s, e))
  {
    match e
    case LookL1(i, now, io) => LookCountsOnceL1(s.l1, s.entering[i], now, io);
    case LookL2(i, a, io) => LookCountsOnceL2(s.l2, s.missed[i], a, io);
    case WarmL2(i, a, io) => LookCountsOnceL2(s.l2, s.warming[i], a, io);
  }

  /** What is not a lookup or a Clear leaves hits and misses of both levels alone. */
  lemma OthersCountNoLookup(s: State, e: Event)
    requires Enabled(s, e) && !e.LookL1? && !e.LookL2? && !e.WarmL2? && !e.ClearL1? && !e.ClearL2?
    ensures Next(s, e).l1.counters.misses == s.l1.counters.misses
    ensures LookupCount(Next(s, e).l1.counters) == LookupCount(s.l1.counters)
    ensures LookupCount(Next(s, e).l2.counters) == LookupCount(s.l2.counters)
  {
  }

  lemma OtherKeepsBalance(s: State, e: Event, asked: Asked)
    requires Balanced(s, asked) && Enabled(s, e)
    requires !e.LookL1? && !e.LookL2? && !e.WarmL2? && !e.ClearL1? && !e.ClearL2?
    ensures Balanced(Next(s, e), MoreAsked(asked, s, e))
  {
    OthersCountNoLookup(s, e);
    var t := Next(s, e);
    assert t.missed == s.missed;
    assert t.entering == if e.CallGet? && e.key != "" then s.entering + [e.key] else s.entering;
    assert t.warming == if e.CallWarmRead? then s.warming + [e.missing] else s.warming;
  }

  predicate SameInFlight(s: State, t: State) {
    t.entering == s.entering && t.missed == s.missed && t.warming == s.warming
  }

  predicate NoLookups(c: Counters) { c.hits == 0 && c.misses == 0 }

  lemma ClearsReset(s: State, e: Event)
    requires e.ClearL1? || e.ClearL2?
    ensures SameInFlight(s, Next(s, e))
    ensures e.ClearL1? ==> Next(s, e).l2 == s.l2 && NoLookups(Next(s, e).l1.counters)
    ensures e.ClearL2? ==> Next(s, e).l1 == s.l1 && NoLookups(Next(s, e).l2.counters)
  {
  }

  lemma ResetL1Balances(s: State, t: State, asked: Asked)
    requires Balanced(s, asked) && SameInFlight(s, t) && t.l2 == s.l2 && NoLookups(t.l1.counters)
    ensures Balanced(t, asked.(l1 := |s.entering|, l1Missed := 0))
  {
  }

  lemma ResetL2Balances(s: State, t: State, asked: Asked)
    requires Balanced(s, asked) && SameInFlight(s, t) && t.l1 == s.l1 && NoLookups(t.l2.counters)
    ensures Balanced(t, asked.(l2 := InFlight2(s)))
  {
  }

  lemma ClearKeepsBalance(s: State, e: Event, asked: Asked)
    requires Balanced(s, asked) && (e.ClearL1? || e.ClearL2?)
    ensures Balanced(Next(s, e), MoreAsked(asked, s, e))
  {
    ClearsReset(s, e);
    if e.ClearL1? {
      ResetL1Balances(s, Next(s, e), asked);
    } else {
      ResetL2Balances(s, Next(s, e), asked);
    }
  }

  lemma StepKeepsBalance(s: State, e: Event, asked: Asked)
    requires Balanced(s, asked) && Enabled(s, e)
    ensures Balanced(Next(s, e), MoreAsked(asked, s, e))
  {
    if e.ClearL1? || e.ClearL2? {
      ClearKeepsBalance(s, e, asked);
    } else if e.LookL1? || e.LookL2? || e.WarmL2? {
      LookKeepsBalance(s, e, asked);
    } else {
      OtherKeepsBalance(s, e, asked);
    }
  }

  lemma EmptyBalances(s: State)
    requires Quiet(s) && NoLookups(s.l1.counters) && NoLookups(s.l2.counters)
    ensures Balanced(s, Asked(0, 0, 0))
  {
  }

  /** At every moment of every run the books of both levels balance, whatever Clears did to them: counted
      and in flight together are what was asked for and in flight since the level was last cleared. */
  lemma {:induction false} LookupsInFlight(events: seq<Event>)
    requires Run(events).Some?
    ensures Balanced(Run(events).value, AskedOf(events))
  {
    if events == [] {
      EmptyBalances(Run(events).value);
    } else {
      var before, e := events[..|events| - 1], events[|events| - 1];
      LookupsInFlight(before);
      StepKeepsBalance(Run(before).value, e, AskedOf(before));
    }
  }

  // ----- Since the last successful Clear -----

  function Gets(events: seq<Event>): nat {
    if events == [] then 0
    else
      var e := events[|events| - 1];
      Gets(events[..|events| - 1]) + if e.CallGet? && e.key != "" then 1 else 0
  }

  function WarmReads(events: seq<Event>): nat {
    if events == [] then 0
    else WarmReads(events[..|events| - 1]) + if events[|events| - 1].CallWarmRead? then 1 else 0
  }

  predicate NoClear(events: seq<Event>) {
    forall e | e in events :: !e.ClearL1? && !e.ClearL2?
  }

  lemma {:induction false} AskedSince(events: seq<Event>, since: seq<Event>)
    requires Run(events + since).Some? && NoClear(since)
    requires Run(events).Some? ==> NothingAsked(AskedOf(events))
    ensures AskedFor(AskedOf(events + since), Gets(since), WarmReads(since))
  {
    if since == [] {
      assert events + since == events;
    } else {
      var init, e := since[..|since| - 1], since[|since| - 1];
      assert (events + since)[..|events + since| - 1] == events + init;
      assert since == init + [e];
      AskedSince(events, init);
      OneMoreAsked(AskedOf(events + init), Run(events + init).value, e, Gets(init), WarmReads(init));
    }
  }

  /** Only these Gets and warmer reads were asked for. */
  predicate AskedFor(asked: Asked, gets: nat, warmReads: nat) {
    asked.l1 == gets && asked.l2 == asked.l1Missed + warmReads
  }

  lemma OneMoreAsked(asked: Asked, s: State, e: Event, gets: nat, warmReads: nat)
    requires AskedFor(asked, gets, warmReads) && !e.ClearL1? && !e.ClearL2?
    ensures AskedFor(MoreAsked(asked, s, e), gets + if e.CallGet? && e.key != "" then 1 else 0,
                     warmReads + if e.CallWarmRead? then 1 else 0)
  {
  }

  predicate NothingAsked(asked: Asked) {
    asked.l1 == 0 && asked.l1Missed == 0 && asked.l2 == 0
  }

  lemma TwoClearsForget(asked: Asked, s: State, first: Event, second: Event)
    requires Quiet(s) && first.ClearL1? && second.ClearL2?
    ensures NothingAsked(MoreAsked(MoreAsked(asked, s, first), Next(s, first), second))
  {
    ClearsReset(s, first);
    var t := Next(s, first);
    assert |s.entering| == 0 && |t.missed| == |s.missed| == 0 && |t.warming| == |s.warming| == 0;
  }

  lemma OneMoreEvent(events: seq<Event>, e: Event)
    requires Run(events).Some? && Enabled(Run(events).value, e)
    ensures Run(events + [e]) == Some(Next(Run(events).value, e))
    ensures AskedOf(events + [e]) == MoreAsked(AskedOf(events), Run(events).value, e)
  {
    assert (events + [e])[..|events|] == events;
  }

  lemma BothCleared(events: seq<Event>, first: Event, second: Event)
    requires Run(events).Some? && Quiet(Run(events).value) && first.ClearL1? && second.ClearL2?
    ensures Run(events + [first, second]).Some? && NothingAsked(AskedOf(events + [first, second]))
  {
    OneMoreEvent(events, first);
    OneMoreEvent(events + [first], second);
    assert events + [first, second] == events + [first] + [second];
    TwoClearsForget(AskedOf(events), Run(events).value, first, second);
  }

  /** Hits and misses of both levels are the Gets, and the L1 misses and warmer reads. */
  predicate CountedAll(s: State, gets: nat, warmReads: nat) {
    && s.l1.counters.hits + s.l1.counters.misses == gets
    && s.l2.counters.hits + s.l2.counters.misses == s.l1.counters.misses + warmReads
  }

  lemma QuietBooks(s: State, asked: Asked, gets: nat, warmReads: nat)
    requires Quiet(s) && Balanced(s, asked) && AskedFor(asked, gets, warmReads)
    ensures CountedAll(s, gets, warmReads)
  {
  }

  lemma Conserved(events: seq<Event>, since: seq<Event>)
    requires Run(events + since).Some? && NoClear(since) && Quiet(Run(events + since).value)
    requires Run(events).Some? ==> NothingAsked(AskedOf(events))
    ensures CountedAll(Run(events + since).value, Gets(since), WarmReads(since))
  {
    AskedSince(events, since);
    LookupsInFlight(events + since);
    QuietBooks(Run(events + since).value, AskedOf(events + since), Gets(since), WarmReads(since));
  }

  /** Once nothing is in flight, after a Clear that succeeded on both levels while nothing was: every Get
      was counted by L1 exactly once, and every L1 miss and every warmer read was counted by L2 exactly
      once. */
  lemma LookupsAreConserved(events: seq<Event>, now: int, since: seq<Event>)
    requires Run(events).Some? && Quiet(Run(events).value)
    requires Run(events + [ClearL1, ClearL2(now)] + since).Some? && NoClear(since)
    requires Quiet(Run(events + [ClearL1, ClearL2(now)] + since).value)
    ensures CountedAll(Run(events + [ClearL1, ClearL2(now)] + since).value, Gets(since), WarmReads(since))
  {
    BothCleared(events, ClearL1, ClearL2(now));
    Conserved(events + [ClearL1, ClearL2(now)], since);
  }

  /** And from the start, if there has been no Clear. */
  lemma LookupsSinceStart(events: seq<Event>)
    requires Run(events).Some? && NoClear(events) && Quiet(Run(events).value)
    ensures CountedAll(Run(events).value, Gets(events), WarmReads(events))
  {
    assert [] + events == events;
    Conserved([], events);
  }
}
