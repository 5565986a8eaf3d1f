/** The in-process first level (internal/cache/bigcache.go). */
module BigCache {
  import opened Entries

  /** BigCache has no per-entry expiry; Get compares the age with the stored TTL. */
  predicate Readable(e: Entry, now: int) {
    e.ttl > 0 ==> now - e.createdAt <= e.ttl
  }

  /** What Get leaves in the slot of its key. */
  function ReadSlot(slot: Option<Entry>, now: int): Option<Entry> {
    match slot
    case None => None
    case Some(e) => if Readable(e, now) then Some(Touched(e, now)) else None
  }

  /** What Get answers for its key. */
  function ReadAnswer(slot: Option<Entry>, now: int): Result<Value> {
    match slot
    case None => Err(CacheNotFound)
    case Some(e) => if Readable(e, now) then Ok(e.value) else Err(CacheExpired)
  }

  datatype Level = Level(entries: map<Key, Entry>, counters: Counters)

  const EMPTY := Level(map[], NO_COUNTS)

  // ----- Each operation as a function of the level -----

  function GetAnswer(l: Level, key: Key, now: int, io: Io): Result<Value> {
    if key == "" then Err(InvalidKey)
    else if io.readFails then Err(Unavailable)
    else ReadAnswer(Lookup(l.entries, key), now)
  }

  function AfterGet(l: Level, key: Key, now: int, io: Io): Level {
    if key == "" then l
    else
      var c := l.counters;
      var slot := Lookup(l.entries, key);
      if io.readFails || !ReadAnswer(slot, now).Ok? then
        Level(if io.readFails then l.entries else Put(l.entries, key, ReadSlot(slot, now)),
              c.(misses := c.misses + 1))
      else
        Level(if io.writeFails then l.entries else Put(l.entries, key, ReadSlot(slot, now)),
              c.(hits := c.hits + 1))
  }

  function SetAnswer(key: Key, value: Value, io: Io): Result<()> {
    if key == "" then Err(InvalidKey)
    else if value == Nil then Err(InvalidValue)
    else if io.writeFails then Err(Unavailable)
    else Ok(())
  }

  function AfterSet(l: Level, key: Key, value: Value, ttl: int, now: int, io: Io): Level {
    if SetAnswer(key, value, io).Err? then l
    else Level(l.entries[key := NewEntry(key, value, ttl, 1, now)],
               l.counters.(sets := l.counters.sets + 1))
  }

  function DeleteAnswer(l: Level, key: Key, io: Io): Result<()> {
    if key == "" then Err(InvalidKey)
    else if io.writeFails then Err(Unavailable)
    else if key !in l.entries then Err(CacheNotFound)
    else Ok(())
  }

  function AfterDelete(l: Level, key: Key, io: Io): Level {
    if DeleteAnswer(l, key, io).Err? then l
    else Level(l.entries - {key}, l.counters.(deletes := l.counters.deletes + 1))
  }

  function AfterClear(l: Level, io: Io): Level {
    if io.writeFails then l else EMPTY
  }

  /** The cache object, with its counters updated in place. */
  class BigCacheImpl {
    var cache: map<Key, Entry>
    var hits: nat
    var misses: nat
    var sets: nat
    var deletes: nat

    function State(): Level
      reads this
    {
      Level(cache, Counters(hits, misses, sets, deletes))
    }

    constructor ()
      ensures State() == EMPTY
    {
      cache, hits, misses, sets, deletes := map[], 0, 0, 0, 0;
    }

    method Get(key: Key, now: int, io: Io) returns (r: Result<Value>)
      modifies this
      ensures r == GetAnswer(old(State()), key, now, io)
      ensures State() == AfterGet(old(State()), key, now, io)
      ensures forall other | other != key :: Lookup(cache, other) == Lookup(old(cache), other)
      ensures r == if key == "" then Err(InvalidKey)
                   else if io.readFails then Err(Unavailable)
                   else if key !in old(cache) then Err(CacheNotFound)
                   else if old(cache)[key].ttl > 0 && now > old(cache)[key].createdAt + old(cache)[key].ttl
                   then Err(CacheExpired)
                   else Ok(old(cache)[key].value)
      ensures r.Ok? ==>
                var e := old(cache)[key];
                Lookup(cache, key) ==
                Some(if io.writeFails then e else e.(accessedAt := now, hitCount := e.hitCount + 1))
      ensures r.Err? ==> Lookup(cache, key) == if r.error == CacheExpired then None else Lookup(old(cache), key)
      ensures sets == old(sets) && deletes == old(deletes)
      ensures hits == old(hits) + (if r.Ok? then 1 else 0)
      ensures misses == old(misses) + (if r.Err? && key != "" then 1 else 0)
    {
      if key == "" {
        return Err(InvalidKey);
      }
      if io.readFails {
        misses := misses + 1;
        return Err(Unavailable);
      }
      if key !in cache {
        misses := misses + 1;
        assert cache - {key} == cache;
        return Err(CacheNotFound);
      }
      var entry := cache[key];
      if entry.ttl > 0 && now - entry.createdAt > entry.ttl {
        cache := cache - {key};
        misses := misses + 1;
        return Err(CacheExpired);
      }
      entry := entry.(accessedAt := now);
      entry := entry.(hitCount := entry.hitCount + 1);
      if !io.writeFails {
        cache := cache[key := entry];
      }
      hits := hits + 1;
      return Ok(entry.value);
    }

    method Set(key: Key, value: Value, ttl: int, now: int, io: Io) returns (r: Result<()>)
      modifies this
      ensures r == SetAnswer(key, value, io)
      ensures State() == AfterSet(old(State()), key, value, ttl, now, io)
      ensures forall other | other != key :: Lookup(cache, other) == Lookup(old(cache), other)
      ensures Lookup(cache, key) ==
              if r.Ok? then Some(Entry(key, value, ttl, now, now, 0, 1)) else Lookup(old(cache), key)
      ensures sets == old(sets) + (if r.Ok? then 1 else 0)
      ensures hits == old(hits) && misses == old(misses) && deletes == old(deletes)
    {
      if key == "" {
        return Err(InvalidKey);
      }
      if value == Nil {
        return Err(InvalidValue);
      }
      if io.writeFails {
        return Err(Unavailable);
      }
      cache := cache[key := Entry(key, value, ttl, now, now, 0, 1)];
      sets := sets + 1;
      return Ok(());
    }

    method Delete(key: Key, io: Io) returns (r: Result<()>)
      modifies this
      ensures r == DeleteAnswer(old(State()), key, io)
      ensures State() == AfterDelete(old(State()), key, io)
      ensures cache == if r.Ok? then old(cache) - {key} else old(cache)
      ensures deletes == old(deletes) + (if r.Ok? then 1 else 0)
      ensures hits == old(hits) && misses == old(misses) && sets == old(sets)
    {
      if key == "" {
        return Err(InvalidKey);
      }
      if io.writeFails {
        return Err(Unavailable);
      }
      if key !in cache {
        return Err(CacheNotFound);
      }
      cache := cache - {key};
      deletes := deletes + 1;
      return Ok(());
    }

    /** Exists does not look at the TTL. */
    method Exists(key: Key, io: Io) returns (r: Result<bool>)
      ensures r == if key == "" then Err(InvalidKey)
                   else if io.readFails then Err(Unavailable)
                   else Ok(key in cache)
    {
      if key == "" {
        return Err(InvalidKey);
      }
      if io.readFails {
        return Err(Unavailable);
      }
      return Ok(key in cache);
    }

    method Clear(io: Io) returns (r: Result<()>)
      modifies this
      ensures r == if io.writeFails then Err(Unavailable) else Ok(())
      ensures State() == AfterClear(old(State()), io)
    {
      if io.writeFails {
        return Err(Unavailable);
      }
      cache := map[];
      hits, misses, sets, deletes := 0, 0, 0, 0;
      return Ok(());
    }
  }

  // ----- Reads leave the readability window where it was -----

  function ReadAll(slot: Option<Entry>, times: seq<int>): Option<Entry> {
    if times == [] then slot else ReadSlot(ReadAll(slot, times[..|times| - 1]), times[|times| - 1])
  }

  /** The entry survives a series of reads iff every one of them was inside the window. If it
      survives, it is the same payload, read once per read, and so readable at exactly the same
      instants as before. */
  lemma {:induction false} ReadsKeepTheWindow(e: Entry, times: seq<int>)
    ensures ReadAll(Some(e), times).Some? <==> forall t | t in times :: Readable(e, t)
    ensures ReadAll(Some(e), times).Some? ==>
              var f := ReadAll(Some(e), times).value;
              && SamePayload(e, f)
              && f.hitCount == e.hitCount + |times|
              && f.accessedAt == (if times == [] then e.accessedAt else times[|times| - 1])
              && forall t :: Readable(f, t) <==> (e.ttl > 0 ==> t <= e.createdAt + e.ttl)
  {
    if times != [] {
      var init, last := times[..|times| - 1], times[|times| - 1];
      ReadsKeepTheWindow(e, init);
      assert times == init + [last];
      if forall t | t in times :: Readable(e, t) {
        assert forall t | t in init :: t in times;
        assert last in times;
      } else if forall t | t in init :: Readable(e, t) {
        assert !Readable(e, last);
      }
    }
  }

  // ----- Hit counts over whole runs -----

  datatype Op =
    | Get(key: Key, now: int, io: Io)
    | Set(key: Key, value: Value, ttl: int, now: int, io: Io)
    | Delete(key: Key, io: Io)
    | Evict(key: Key)                  // BigCache drops an entry on its own
    | Clear(io: Io)

  function Apply(l: Level, op: Op): Level {
    match op
    case Get(k, now, io) => AfterGet(l, k, now, io)
    case Set(k, v, ttl, now, io) => AfterSet(l, k, v, ttl, now, io)
    case Delete(k, io) => AfterDelete(l, k, io)
    case Evict(k) => l.(entries := l.entries - {k})
    case Clear(io) => AfterClear(l, io)
  }

  function Run(ops: seq<Op>): Level {
    if ops == [] then EMPTY else Apply(Run(ops[..|ops| - 1]), ops[|ops| - 1])
  }

  // ----- What the level holds, read off the run -----

  /** The Set whose entry k still has: the last that was accepted, unless since then k was deleted or
      evicted, the level was cleared, or a Get found the entry expired. */
  function LiveSet(ops: seq<Op>, k: Key): (live: Option<Op>)
    ensures live.Some? ==> live.value in ops && live.value.Set? && live.value.key == k && k != ""
  {
    if ops == [] then None
    else
      var before, op := LiveSet(ops[..|ops| - 1], k), ops[|ops| - 1];
      match op
      case Set(key, value, _, _, io) =>
        if key == k && k != "" && value != Nil && !io.writeFails then Some(op) else before
      case Get(key, now, io) =>
        if key == k && !io.readFails && before.Some?
           && before.value.ttl > 0 && now - before.value.now > before.value.ttl
        then None else before
      case Delete(key, io) => if key == k && !io.writeFails then None else before
      case Evict(key) => if key == k then None else before
      case Clear(io) => if io.writeFails then before else None
  }

  /** Over every run the level holds, for each key, exactly the entry of that Set, whatever was read and
      whatever happened to other keys. */
  lemma {:induction false} HoldsTheLiveSet(ops: seq<Op>, k: Key)
    ensures k in Run(ops).entries <==> LiveSet(ops, k).Some?
    ensures k in Run(ops).entries ==>
              var e, op := Run(ops).entries[k], LiveSet(ops, k).value;
              && e.key == k && e.value == op.value && e.ttl == op.ttl && e.createdAt == op.now && e.version == 1
              && op.value != Nil
  {
    if ops != [] {
      HoldsTheLiveSet(ops[..|ops| - 1], k);
    }
  }

  /** So a Get answers with the value of that Set exactly up to its instant plus its TTL. */
  lemma AnswersTheLiveSet(ops: seq<Op>, k: Key, t: int)
    requires k != ""
    ensures GetAnswer(Run(ops), k, t, HEALTHY) ==
            match LiveSet(ops, k)
            case None => Err(CacheNotFound)
            case Some(op) =>
              if op.ttl > 0 && t > op.now + op.ttl then Err(CacheExpired) else Ok(op.value)
  {
    HoldsTheLiveSet(ops, k);
  }

  predicate Hits(l: Level, op: Op, k: Key) {
    op.Get? && op.key == k && GetAnswer(l, k, op.now, op.io).Ok?
  }

  predicate Stores(op: Op, k: Key) {
    op.Set? && op.key == k && SetAnswer(k, op.value, op.io).Ok?
  }

  /** How often a run hit k after the last successful Set of k, read off the run itself. */
  function HitsSinceSet(ops: seq<Op>, k: Key): nat {
    if ops == [] then 0
    else
      var before, op := ops[..|ops| - 1], ops[|ops| - 1];
      if Stores(op, k) then 0
      else HitsSinceSet(before, k) + (if Hits(Run(before), op, k) then 1 else 0)
  }

  /** With its write-backs succeeding, a stored entry's HitCount is the number of hits since its
      last Set. */
  lemma {:induction false} HitCountCountsHits(ops: seq<Op>, k: Key)
    requires forall op | op in ops && op.Get? :: !op.io.writeFails
    requires k in Run(ops).entries
    ensures Run(ops).entries[k].hitCount == HitsSinceSet(ops, k)
  {
    var before, op := ops[..|ops| - 1], ops[|ops| - 1];
    assert op in ops && forall o | o in before :: o in ops;
    if !Stores(op, k) {
      assert k in Run(before).entries;
      HitCountCountsHits(before, k);
    }
  }

  /** The entry was last touched by the last hit of k or, if there was none since, by its Set. */
  function LastTouch(ops: seq<Op>, k: Key): int {
    if ops == [] then 0
    else
      var before, op := ops[..|ops| - 1], ops[|ops| - 1];
      if Stores(op, k) || Hits(Run(before), op, k) then op.now else LastTouch(before, k)
  }

  lemma {:induction false} AccessedAtIsTheLastTouch(ops: seq<Op>, k: Key)
    requires forall op | op in ops && op.Get? :: !op.io.writeFails
    requires k in Run(ops).entries
    ensures Run(ops).entries[k].accessedAt == LastTouch(ops, k)
  {
    var before, op := ops[..|ops| - 1], ops[|ops| - 1];
    assert op in ops && forall o | o in before :: o in ops;
    if !Stores(op, k) {
      assert k in Run(before).entries;
      AccessedAtIsTheLastTouch(before, k);
    }
  }

  // ----- Counters over whole runs -----

  /** What happened since the last Clear that succeeded, counted off the run. */
  function Tally(ops: seq<Op>): Counters {
    if ops == [] then Counters(0, 0, 0, 0)
    else
      var before, op := ops[..|ops| - 1], ops[|ops| - 1];
      var c := Tally(before);
      match op
      case Get(k, now, io) =>
        if k == "" then c
        else if GetAnswer(Run(before), k, now, io).Ok? then c.(hits := c.hits + 1)
        else c.(misses := c.misses + 1)
      case Set(k, v, _, _, io) =>
        if k == "" || v == Nil || io.writeFails then c else c.(sets := c.sets + 1)
      case Delete(k, io) =>
        if io.writeFails || LiveSet(before, k).None? then c else c.(deletes := c.deletes + 1)
      case Evict(_) => c
      case Clear(io) => if io.writeFails then c else Counters(0, 0, 0, 0)
  }

  lemma {:induction false} CountersTally(ops: seq<Op>)
    ensures Run(ops).counters == Tally(ops)
  {
    if ops != [] {
      var before, op := ops[..|ops| - 1], ops[|ops| - 1];
      CountersTally(before);
      if op.Delete? {
        HoldsTheLiveSet(before, op.key);
      }
    }
  }

  ghost function SumHits(m: map<Key, Entry>): nat {
    if m == map[] then 0 else var k :| k in m; m[k].hitCount + SumHits(m - {k})
  }

  lemma {:induction false} SumWithout(m: map<Key, Entry>, k: Key)
    requires k in m
    ensures SumHits(m) == m[k].hitCount + SumHits(m - {k})
  {
    var j :| j in m && SumHits(m) == m[j].hitCount + SumHits(m - {j});
    if j != k {
      SumWithout(m - {j}, k);
      SumWithout(m - {k}, j);
      assert m - {j} - {k} == m - {k} - {j};
    }
  }

  lemma SumUpdated(m: map<Key, Entry>, k: Key, e: Entry)
    ensures SumHits(m[k := e]) == e.hitCount + SumHits(m - {k})
    ensures SumHits(m - {k}) <= SumHits(m)
  {
    SumWithout(m[k := e], k);
    assert m[k := e] - {k} == m - {k};
    if k in m {
      SumWithout(m, k);
    } else {
      assert m - {k} == m;
    }
  }

  /** Through any mix of operations, failures included, the stored hit counts never add up to more
      than the hits counter. */
  lemma {:induction false} StoredHitsWithinCounter(ops: seq<Op>)
    ensures SumHits(Run(ops).entries) <= Run(ops).counters.hits
  {
    if ops != [] {
      var before, op := ops[..|ops| - 1], ops[|ops| - 1];
      StoredHitsWithinCounter(before);
      var m := Run(before).entries;
      if !op.Clear? {
        SumUpdated(m, op.key, NewEntry("", Nil, 0, 0, 0));
      }
      if op.Set? {
        SumUpdated(m, op.key, NewEntry(op.key, op.value, op.ttl, 1, op.now));
      }
      if op.Get? && op.key in m {
        SumUpdated(m, op.key, Touched(m[op.key], op.now));
        SumWithout(m, op.key);
      }
    }
  }
}
