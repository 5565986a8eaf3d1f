/** Every strategy, backend failures, and each level's read and write-back as two separate steps
    (internal/cache/manager.go, bigcache.go, redis_cache.go): whatever is stored under a key, on its
    way to it, or answered for it, was supplied for that key. */
module Provenance {
  import opened Entries
  import L1 = BigCache
  import L2 = RedisCache
  import opened Manager

  /** Work somebody still has to do on one level. */
  datatype Job =
    | SetL1(key: Key, value: Value, ttl: int, thenL2: bool)   // thenL2: the write-back strategy
    | SetL2(key: Key, value: Value, ttl: int, version: int)
    | DelL1(key: Key)
    | DelL2(key: Key)
    | RestoreL1(key: Key, entry: Entry)                       // the write-back of a Get
    | RestoreL2(key: Key, entry: Entry)
    | LookL2(key: Key)                                        // a Get that missed L1

  datatype State = State(
    l1: map<Key, Entry>, l2: map<Key, L2.Stored>, jobs: seq<Job>,
    supplied: set<(Key, Value)>, answered: set<(Key, Value)>)

  const START := State(map[], map[], [], {}, {})

  datatype Event =
    | CallSet(key: Key, value: Value, ttl: int, strategy: Strategy)
    | CallSetToLevel(key: Key, value: Value, ttl: int, first: bool)
    | CallSetWithVersion(key: Key, value: Value, ttl: int, version: int)
    | CallDelete(key: Key)
    | CallGet(key: Key, now: int, fails: bool)                // its look into L1
    | Warm(key: Key)                                          // the warmer found L1 without the key
    | Step(i: nat, now: int, computedAt: int, fails: bool)                     // job i makes its one access
    | DropL1(key: Key)
    | DropL2(key: Key)
    | ClearL1
    | ClearL2

  function Started(s: State, jobs: seq<Job>): State {
    s.(jobs := s.jobs + jobs)
  }

  predicate Enabled(s: State, e: Event) {
    e.Step? ==> e.i < |s.jobs|
  }

  function Next(s: State, e: Event, defaultTTL: int): State
    requires Enabled(s, e)
  {
    match e
    case CallSet(k, v, ttl, strategy) =>
      if k == "" || v == Nil then s
      else
        var ttl' := if ttl == 0 then defaultTTL else ttl;
        var s' := s.(supplied := s.supplied + {(k, v)});
        if strategy == WriteBack then Started(s', [SetL1(k, v, ttl', true)])
        else Started(s', [SetL1(k, v, ttl', false), SetL2(k, v, ttl', 1)])
    case CallSetToLevel(k, v, ttl, first) =>
      if k == "" || v == Nil then s
      else Started(s.(supplied := s.supplied + {(k, v)}),
                   [if first then SetL1(k, v, ttl, false) else SetL2(k, v, ttl, 1)])
    case CallSetWithVersion(k, v, ttl, version) =>
      if k == "" then s
      else Started(s.(supplied := s.supplied + {(k, v)}), [SetL2(k, v, ttl, version)])
    case CallDelete(k) => if k == "" then s else Started(s, [DelL1(k), DelL2(k)])
    case CallGet(k, now, fails) =>
      if k == "" then s
      else if fails || k !in s.l1 then Started(s, [LookL2(k)])
      else
        var entry := s.l1[k];
        if L1.Readable(entry, now) then
          Started(s, [RestoreL1(k, Touched(entry, now))]).(answered := s.answered + {(k, entry.value)})
        else Started(s, [DelL1(k), LookL2(k)])
    case Warm(k) => if k == "" then s else Started(s, [LookL2(k)])
    case Step(i, now, computedAt, fails) =>
      var rest := s.(jobs := s.jobs[..i] + s.jobs[i + 1..]);
      if fails then rest else Access(rest, s.jobs[i], now, computedAt, defaultTTL)
    case DropL1(k) => s.(l1 := s.l1 - {k})
    case DropL2(k) => s.(l2 := s.l2 - {k})
    case ClearL1 => s.(l1 := map[])
    case ClearL2 => s.(l2 := map[])
  }

  function Access(s: State, job: Job, now: int, computedAt: int, defaultTTL: int): State {
    match job
    case SetL1(k, v, ttl, thenL2) =>
      if v == Nil then s
      else
        var s' := s.(l1 := s.l1[k := NewEntry(k, v, ttl, 1, now)]);
        if thenL2 then Started(s', [SetL2(k, v, ttl, 1)]) else s'
    case SetL2(k, v, ttl, version) => s.(l2 := s.l2[k := L2.NewStored(k, v, ttl, version, now)])
    case DelL1(k) => s.(l1 := s.l1 - {k})
    case DelL2(k) => s.(l2 := s.l2 - {k})
    case RestoreL1(k, entry) => s.(l1 := s.l1[k := entry])
    case RestoreL2(k, entry) =>
      s.(l2 := s.l2[k := L2.Stored(entry, L2.Armed(L2.Expiry(entry) - computedAt, now))])
    case LookL2(k) =>
      if k !in s.l2 || !L2.Visible(s.l2[k], now) then s
      else
        var entry := s.l2[k].entry;
        Started(s, [RestoreL2(k, Touched(entry, now)), SetL1(k, entry.value, defaultTTL, false)])
          .(answered := s.answered + {(k, entry.value)})
  }

  // ----- Whole runs -----

  function Run(events: seq<Event>, defaultTTL: int): Option<State> {
    if events == [] then Some(START)
    else
      match Run(events[..|events| - 1], defaultTTL)
      case None => None
      case Some(s) =>
        var e := events[|events| - 1];
        if Enabled(s, e) then Some(Next(s, e, defaultTTL)) else None
  }

  /** Some set call of the run carried this value for this key. */
  predicate SuppliedIn(events: seq<Event>, k: Key, v: Value) {
    exists i | 0 <= i < |events| :: Supplies(events[i], k, v)
  }

  predicate Supplies(e: Event, k: Key, v: Value) {
    && (e.CallSet? || e.CallSetToLevel? || e.CallSetWithVersion?)
    && e.key == k && e.value == v && k != ""
  }

  predicate JobFrom(supplied: set<(Key, Value)>, job: Job) {
    match job
    case SetL1(k, v, _, _) => (k, v) in supplied
    case SetL2(k, v, _, _) => (k, v) in supplied
    case RestoreL1(k, entry) => EntryFrom(supplied, k, entry)
    case RestoreL2(k, entry) => EntryFrom(supplied, k, entry)
    case _ => true
  }

  predicate EntryFrom(supplied: set<(Key, Value)>, k: Key, entry: Entry) {
    entry.key == k && (k, entry.value) in supplied
  }

  predicate Inv(s: State) {
    && (forall k | k in s.l1 :: EntryFrom(s.supplied, k, s.l1[k]))
    && (forall k | k in s.l2 :: EntryFrom(s.supplied, k, s.l2[k].entry))
    && (forall i | 0 <= i < |s.jobs| :: JobFrom(s.supplied, s.jobs[i]))
    && s.answered <= s.supplied
  }

  lemma StartedKept(s: State, jobs: seq<Job>)
    requires Inv(s) && forall i | 0 <= i < |jobs| :: JobFrom(s.supplied, jobs[i])
    ensures Inv(Started(s, jobs))
  {
  }

  lemma SuppliedKept(s: State, k: Key, v: Value)
    requires Inv(s)
    ensures Inv(s.(supplied := s.supplied + {(k, v)}))
  {
    var bigger := s.supplied + {(k, v)};
    assert forall job | JobFrom(s.supplied, job) :: JobFrom(bigger, job);
  }

  lemma AccessKept(s: State, job: Job, now: int, computedAt: int, defaultTTL: int)
    requires Inv(s) && JobFrom(s.supplied, job)
    ensures Inv(Access(s, job, now, computedAt, defaultTTL))
    ensures Access(s, job, now, computedAt, defaultTTL).supplied == s.supplied
  {
    match job
    case LookL2(k) =>
      if k in s.l2 {
        assert EntryFrom(s.supplied, k, s.l2[k].entry);
      }
    case _ =>
  }

  lemma CallKept(s: State, e: Event, defaultTTL: int)
    requires Inv(s) && (e.CallSet? || e.CallSetToLevel? || e.CallSetWithVersion?)
    ensures Inv(Next(s, e, defaultTTL))
    ensures forall k, v | (k, v) in Next(s, e, defaultTTL).supplied :: (k, v) in s.supplied || Supplies(e, k, v)
  {
    SuppliedKept(s, e.key, e.value);
    var s' := s.(supplied := s.supplied + {(e.key, e.value)});
    match e
    case CallSet(k, v, ttl, strategy) =>
      var ttl' := if ttl == 0 then defaultTTL else ttl;
      StartedKept(s', [SetL1(k, v, ttl', true)]);
      StartedKept(s', [SetL1(k, v, ttl', false), SetL2(k, v, ttl', 1)]);
    case CallSetToLevel(k, v, ttl, first) =>
      StartedKept(s', [if first then SetL1(k, v, ttl, false) else SetL2(k, v, ttl, 1)]);
    case CallSetWithVersion(k, v, ttl, version) => StartedKept(s', [SetL2(k, v, ttl, version)]);
  }

  lemma GetKept(s: State, k: Key, now: int, fails: bool, defaultTTL: int)
    requires Inv(s)
    ensures Inv(Next(s, CallGet(k, now, fails), defaultTTL))
    ensures Next(s, CallGet(k, now, fails), defaultTTL).supplied == s.supplied
  {
    StartedKept(s, [LookL2(k)]);
    StartedKept(s, [DelL1(k), LookL2(k)]);
    if k in s.l1 {
      assert EntryFrom(s.supplied, k, s.l1[k]);
      StartedKept(s, [RestoreL1(k, Touched(s.l1[k], now))]);
    }
  }

  lemma StepKept(s: State, i: nat, now: int, computedAt: int, fails: bool, defaultTTL: int)
    requires Inv(s) && i < |s.jobs|
    ensures Inv(Next(s, Step(i, now, computedAt, fails), defaultTTL))
    ensures Next(s, Step(i, now, computedAt, fails), defaultTTL).supplied == s.supplied
  {
    var rest := s.(jobs := s.jobs[..i] + s.jobs[i + 1..]);
    assert Inv(rest);
    assert JobFrom(s.supplied, s.jobs[i]);
    AccessKept(rest, s.jobs[i], now, computedAt, defaultTTL);
  }

  lemma InvKept(s: State, e: Event, defaultTTL: int)
    requires Inv(s) && Enabled(s, e)
    ensures Inv(Next(s, e, defaultTTL))
    ensures forall k, v | (k, v) in Next(s, e, defaultTTL).supplied :: (k, v) in s.supplied || Supplies(e, k, v)
  {
    if e.CallSet? || e.CallSetToLevel? || e.CallSetWithVersion? {
      CallKept(s, e, defaultTTL);
    } else if e.CallGet? {
      GetKept(s, e.key, e.now, e.fails, defaultTTL);
    } else if e.Step? {
      StepKept(s, e.i, e.now, e.computedAt, e.fails, defaultTTL);
    } else if e.CallDelete? {
      StartedKept(s, [DelL1(e.key), DelL2(e.key)]);
    } else if e.Warm? {
      StartedKept(s, [LookL2(e.key)]);
    }
  }

  /** In every interleaving: a stored entry carries its own key, and its value, like every value a
      pending write carries and every value a Get answered, was supplied by some set call of the run
      for that same key. */
  lemma {:induction false} EveryValueWasSupplied(events: seq<Event>, defaultTTL: int)
    requires Run(events, defaultTTL).Some?
    ensures
      var s := Run(events, defaultTTL).value;
      && Inv(s)
      && (forall k, v | (k, v) in s.supplied :: SuppliedIn(events, k, v))
      && (forall k | k in s.l1 :: s.l1[k].key == k && SuppliedIn(events, k, s.l1[k].value))
      && (forall k | k in s.l2 :: s.l2[k].entry.key == k && SuppliedIn(events, k, s.l2[k].entry.value))
      && (forall k, v | (k, v) in s.answered :: SuppliedIn(events, k, v))
  {
    if events != [] {
      var n := |events| - 1;
      var before := events[..n];
      EveryValueWasSupplied(before, defaultTTL);
      InvKept(Run(before, defaultTTL).value, events[n], defaultTTL);
      var s := Run(events, defaultTTL).value;
      forall k, v | (k, v) in s.supplied
        ensures SuppliedIn(events, k, v)
      {
        if SuppliedIn(before, k, v) {
          var i :| 0 <= i < n && Supplies(before[i], k, v);
          assert Supplies(events[i], k, v);
        } else {
          assert Supplies(events[n], k, v);
        }
      }
    }
  }

  // ----- And supplied values do arrive -----

  /** A set call and the steps it has to make, without failures, put the value under its key into both
      levels, under every strategy; the write-back strategy starts its L2 step after the L1 one. */
  lemma SetArrives(s: State, k: Key, v: Value, ttl: int, strategy: Strategy, defaultTTL: int, now: int, later: int)
    requires k != "" && v != Nil && s.jobs == []
    ensures
      var called := Next(s, CallSet(k, v, ttl, strategy), defaultTTL);
      var effective := if ttl == 0 then defaultTTL else ttl;
      && (k, v) in called.supplied && called.jobs != []
      && var one := Next(called, Step(0, now, now, false), defaultTTL);
      && one.jobs != []
      && var two := Next(one, Step(0, later, later, false), defaultTTL);
      && two.jobs == []
      && Lookup(two.l1, k) == Some(Entry(k, v, effective, now, now, 0, 1))
      && Lookup(two.l2, k) == Some(L2.Stored(Entry(k, v, effective, later, later, 0, 1),
                                             if effective > 0 then Some(later + effective) else None))
      && (forall other | other != k :: Lookup(two.l1, other) == Lookup(s.l1, other))
      && (forall other | other != k :: Lookup(two.l2, other) == Lookup(s.l2, other))
  {
  }

  /** So does a set of one level on that level. */
  lemma LevelSetArrives(s: State, k: Key, v: Value, ttl: int, version: int, first: bool, defaultTTL: int, now: int)
    requires k != "" && v != Nil && s.jobs == []
    ensures
      var called := Next(s, CallSetToLevel(k, v, ttl, first), defaultTTL);
      && called.jobs != []
      && var t := Next(called, Step(0, now, now, false), defaultTTL);
      && (first ==> Lookup(t.l1, k) == Some(Entry(k, v, ttl, now, now, 0, 1)) && t.l2 == s.l2)
      && (!first ==> Lookup(t.l2, k) == Some(L2.NewStored(k, v, ttl, 1, now)) && t.l1 == s.l1)
    ensures
      var called := Next(s, CallSetWithVersion(k, v, ttl, version), defaultTTL);
      && called.jobs != []
      && var t := Next(called, Step(0, now, now, false), defaultTTL);
      Lookup(t.l2, k) == Some(L2.NewStored(k, v, ttl, version, now)) && t.l1 == s.l1
  {
  }

  /** A Delete and its two steps take the key, and only the key, out of both levels. */
  lemma DeleteArrives(s: State, k: Key, defaultTTL: int, now: int)
    requires k != "" && s.jobs == []
    ensures
      var called := Next(s, CallDelete(k), defaultTTL);
      && |called.jobs| == 2
      && var two := Next(Next(called, Step(0, now, now, false), defaultTTL), Step(0, now, now, false), defaultTTL);
      two == s.(l1 := s.l1 - {k}, l2 := s.l2 - {k})
  {
  }

  /** A Get that L1 does not answer and L2 does answers with L2's value and, by its fill, brings it into
      L1. */
  lemma GetArrives(s: State, k: Key, defaultTTL: int, now: int)
    requires k != "" && s.jobs == [] && k !in s.l1 && k in s.l2 && L2.Visible(s.l2[k], now)
    requires s.l2[k].entry.value != Nil
    ensures
      var asked := Next(s, CallGet(k, now, false), defaultTTL);
      && asked.jobs == [LookL2(k)]
      && var looked := Next(asked, Step(0, now, now, false), defaultTTL);
      && (k, s.l2[k].entry.value) in looked.answered && |looked.jobs| == 2
      && var filled := Next(looked, Step(1, now, now, false), defaultTTL);
      Lookup(filled.l1, k) == Some(Entry(k, s.l2[k].entry.value, defaultTTL, now, now, 0, 1))
  {
    var asked := Next(s, CallGet(k, now, false), defaultTTL);
    assert asked.jobs == [LookL2(k)];
    var looked := Next(asked, Step(0, now, now, false), defaultTTL);
    assert looked.jobs == [RestoreL2(k, Touched(s.l2[k].entry, now)), SetL1(k, s.l2[k].entry.value, defaultTTL, false)];
  }

  /** A Get that L1 answers does so with L1's value and writes the entry back, touched. */
  lemma HitArrives(s: State, k: Key, defaultTTL: int, now: int, later: int)
    requires k != "" && s.jobs == [] && k in s.l1 && L1.Readable(s.l1[k], now)
    ensures
      var asked := Next(s, CallGet(k, now, false), defaultTTL);
      && (k, s.l1[k].value) in asked.answered && |asked.jobs| == 1 && asked.l2 == s.l2
      && var restored := Next(asked, Step(0, later, later, false), defaultTTL);
      && restored.jobs == [] && restored.l2 == s.l2
      && restored.l1 == s.l1[k := s.l1[k].(accessedAt := now, hitCount := s.l1[k].hitCount + 1)]
  {
  }

  /** One that finds L1's entry expired removes it and goes on to L2, as do one that misses and the
      warmer. */
  lemma MissGoesOn(s: State, k: Key, defaultTTL: int, now: int, fails: bool)
    requires k != "" && (fails || k !in s.l1 || !L1.Readable(s.l1[k], now))
    ensures Next(s, CallGet(k, now, fails), defaultTTL) ==
            s.(jobs := s.jobs + if fails || k !in s.l1 then [LookL2(k)] else [DelL1(k), LookL2(k)])
    ensures Next(s, Warm(k), defaultTTL) == s.(jobs := s.jobs + [LookL2(k)])
  {
  }

  /** A read of L2 that sees the record writes it back with the time that was left. */
  lemma LookRestores(s: State, k: Key, defaultTTL: int, now: int, computedAt: int, later: int)
    requires s.jobs == [LookL2(k)] && k in s.l2 && L2.Visible(s.l2[k], now)
    ensures
      var looked := Next(s, Step(0, now, now, false), defaultTTL);
      && looked.jobs != [] && looked.l1 == s.l1 && looked.l2 == s.l2
      && var restored := Next(looked, Step(0, later, computedAt, false), defaultTTL);
      var e := s.l2[k].entry;
      var left := e.createdAt + e.ttl - computedAt;
      restored.l2 == s.l2[k := L2.Stored(e.(accessedAt := now, hitCount := e.hitCount + 1),
                                         if left > 0 then Some(later + left) else None)]
  {
  }
}
