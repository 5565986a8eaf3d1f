/** The Redis second level (internal/cache/redis_cache.go). */
module RedisCache {
  import opened Entries

  /** A stored record with the absolute deadline Redis keeps for it, if any. */
  datatype Stored = Stored(entry: Entry, deadline: Option<int>)

  predicate Visible(s: Stored, now: int) {
    s.deadline.Some? ==> now < s.deadline.value
  }

  /** Redis SET with an expiry: a positive one sets a deadline, any other sets none. */
  function Armed(expiry: int, now: int): Option<int> {
    if expiry > 0 then Some(now + expiry) else None
  }

  function NewStored(key: Key, value: Value, ttl: int, version: int, now: int): Stored {
    Stored(NewEntry(key, value, ttl, version, now), Armed(ttl, now))
  }

  /** The instants of one Get: Redis serves the read, the client works out how much time is left, Redis
      executes the write-back. */
  datatype Access = Access(readAt: int, computedAt: int, setAt: int)

  function At(now: int): Access { Access(now, now, now) }

  /** Get reads the record, bumps its metadata and stores it back with the time that is left. */
  function WriteBack(e: Entry, computedAt: int, setAt: int): Stored {
    Stored(Touched(e, computedAt), Armed(e.createdAt + e.ttl - computedAt, setAt))
  }

  function ReadSlot(slot: Option<Stored>, a: Access): Option<Stored> {
    match slot
    case Some(s) => if Visible(s, a.readAt) then Some(WriteBack(s.entry, a.computedAt, a.setAt)) else slot
    case None => slot
  }

  function ReadAnswer(slot: Option<Stored>, readAt: int): Result<Value> {
    match slot
    case Some(s) => if Visible(s, readAt) then Ok(s.entry.value) else Err(CacheNotFound)
    case None => Err(CacheNotFound)
  }

  datatype Level = Level(store: map<Key, Stored>, counters: Counters)

  const EMPTY := Level(map[], NO_COUNTS)

  // ----- Each operation as a function of the level -----

  function GetAnswer(l: Level, key: Key, readAt: int, io: Io): Result<Value> {
    if key == "" then Err(InvalidKey)
    else if io.readFails then Err(Unavailable)
    else ReadAnswer(Lookup(l.store, key), readAt)
  }

  function AfterGet(l: Level, key: Key, a: Access, io: Io): Level {
    var c := l.counters;
    if key == "" then l
    else if GetAnswer(l, key, a.readAt, io).Err? then l.(counters := c.(misses := c.misses + 1))
    else Level(if io.writeFails then l.store else Put(l.store, key, ReadSlot(Lookup(l.store, key), a)),
               c.(hits := c.hits + 1))
  }

  function SetAnswer(key: Key, value: Value, io: Io): Result<()> {
    if key == "" then Err(InvalidKey)
    else if value == Nil then Err(InvalidValue)
    else if io.writeFails then Err(Unavailable)
    else Ok(())
  }

  function AfterSet(l: Level, key: Key, value: Value, ttl: int, now: int, io: Io): Level {
    if SetAnswer(key, value, io).Err? then l
    else Level(l.store[key := NewStored(key, value, ttl, 1, now)],
               l.counters.(sets := l.counters.sets + 1))
  }

  function AfterSetWithVersion(l: Level, key: Key, value: Value, ttl: int, version: int, now: int, io: Io): Level {
    if key == "" || io.writeFails then l
    else Level(l.store[key := NewStored(key, value, ttl, version, now)],
               l.counters.(sets := l.counters.sets + 1))
  }

  /** DEL reports zero for a record that has expired. */
  function DeleteAnswer(l: Level, key: Key, now: int, io: Io): Result<()> {
    if key == "" then Err(InvalidKey)
    else if io.writeFails then Err(Unavailable)
    else if key in l.store && Visible(l.store[key], now) then Ok(())
    else Err(CacheNotFound)
  }

  function AfterDelete(l: Level, key: Key, now: int, io: Io): Level {
    if key == "" || io.writeFails then l
    else
      var c := l.counters;
      Level(l.store - {key},
            if DeleteAnswer(l, key, now, io).Ok? then c.(deletes := c.deletes + 1) else c)
  }

  /** The keys a scan for a pattern finds. */
  function Matching(store: map<Key, Stored>, now: int, matches: Key -> bool): set<Key> {
    set k | k in store && Visible(store[k], now) && matches(k)
  }

  class RedisCacheImpl {
    var store: map<Key, Stored>
    var hits: nat
    var misses: nat
    var sets: nat
    var deletes: nat

    function State(): Level
      reads this
    {
      Level(store, Counters(hits, misses, sets, deletes))
    }

    constructor ()
      ensures State() == EMPTY
    {
      store, hits, misses, sets, deletes := map[], 0, 0, 0, 0;
    }

    method Get(key: Key, a: Access, io: Io) returns (r: Result<Value>)
      modifies this
      ensures r == GetAnswer(old(State()), key, a.readAt, io)
      ensures State() == AfterGet(old(State()), key, a, io)
      ensures forall other | other != key :: Lookup(store, other) == Lookup(old(store), other)
      ensures r == if key == "" then Err(InvalidKey)
                   else if io.readFails then Err(Unavailable)
                   else if key in old(store) && Visible(old(store)[key], a.readAt) then Ok(old(store)[key].entry.value)
                   else Err(CacheNotFound)
      ensures r.Ok? && !io.writeFails ==>
                var e := old(store)[key].entry;
                var left := e.createdAt + e.ttl - a.computedAt;
                Lookup(store, key) ==
                Some(Stored(e.(accessedAt := a.computedAt, hitCount := e.hitCount + 1),
                            if left > 0 then Some(a.setAt + left) else None))
      ensures r.Err? || io.writeFails ==> store == old(store)
      ensures sets == old(sets) && deletes == old(deletes)
      ensures hits == old(hits) + (if r.Ok? then 1 else 0)
      ensures misses == old(misses) + (if r.Err? && key != "" then 1 else 0)
    {
      if key == "" {
        return Err(InvalidKey);
      }
      if io.readFails {
        misses := misses + 1;
        return Err(Unavailable);
      }
      if key !in store || !Visible(store[key], a.readAt) {
        misses := misses + 1;
        return Err(CacheNotFound);
      }
      var entry := store[key].entry;
      entry := entry.(accessedAt := a.computedAt);
      entry := entry.(hitCount := entry.hitCount + 1);
      if !io.writeFails {
        var remaining := entry.createdAt + entry.ttl - a.computedAt;
        store := store[key := Stored(entry, if remaining > 0 then Some(a.setAt + remaining) else None)];
      }
      hits := hits + 1;
      return Ok(entry.value);
    }

    method Set(key: Key, value: Value, ttl: int, now: int, io: Io) returns (r: Result<()>)
      modifies this
      ensures r == SetAnswer(key, value, io)
      ensures State() == AfterSet(old(State()), key, value, ttl, now, io)
      ensures forall other | other != key :: Lookup(store, other) == Lookup(old(store), other)
      ensures Lookup(store, key) ==
              if r.Ok? then
                Some(Stored(Entry(key, value, ttl, now, now, 0, 1), if ttl > 0 then Some(now + ttl) else None))
              else Lookup(old(store), key)
      ensures sets == old(sets) + (if r.Ok? then 1 else 0)
      ensures hits == old(hits) && misses == old(misses) && deletes == old(deletes)
    {
      if key == "" {
        return Err(InvalidKey);
      }
      if value == Nil {
        return Err(InvalidValue);
      }
      if io.writeFails {
        return Err(Unavailable);
      }
      store := store[key := Stored(Entry(key, value, ttl, now, now, 0, 1), if ttl > 0 then Some(now + ttl) else None)];
      sets := sets + 1;
      return Ok(());
    }

    /** Unlike Set, SetWithVersion lets a nil value through. */
    method SetWithVersion(key: Key, value: Value, ttl: int, version: int, now: int, io: Io) returns (r: Result<()>)
      modifies this
      ensures r == if key == "" then Err(InvalidKey) else if io.writeFails then Err(Unavailable) else Ok(())
      ensures State() == AfterSetWithVersion(old(State()), key, value, ttl, version, now, io)
      ensures forall other | other != key :: Lookup(store, other) == Lookup(old(store), other)
      ensures r.Ok? ==>
                var deadline := if ttl > 0 then Some(now + ttl) else None;
                Lookup(store, key) == Some(Stored(Entry(key, value, ttl, now, now, 0, version), deadline))
      ensures r.Err? ==> Lookup(store, key) == Lookup(old(store), key)
      ensures sets == old(sets) + (if r.Ok? then 1 else 0)
      ensures hits == old(hits) && misses == old(misses) && deletes == old(deletes)
    {
      if key == "" {
        return Err(InvalidKey);
      }
      if io.writeFails {
        return Err(Unavailable);
      }
      var entry := Entry(key, value, ttl, now, now, 0, version);
      store := store[key := Stored(entry, if ttl > 0 then Some(now + ttl) else None)];
      sets := sets + 1;
      return Ok(());
    }

    method Delete(key: Key, now: int, io: Io) returns (r: Result<()>)
      modifies this
      ensures r == DeleteAnswer(old(State()), key, now, io)
      ensures State() == AfterDelete(old(State()), key, now, io)
      ensures store == if key != "" && !io.writeFails then old(store) - {key} else old(store)
      ensures deletes == old(deletes) + (if r.Ok? then 1 else 0)
      ensures hits == old(hits) && misses == old(misses) && sets == old(sets)
    {
      if key == "" {
        return Err(InvalidKey);
      }
      if io.writeFails {
        return Err(Unavailable);
      }
      var found := key in store && Visible(store[key], now);
      store := store - {key};
      if !found {
        return Err(CacheNotFound);
      }
      deletes := deletes + 1;
      return Ok(());
    }

    /** The scan loop shared by Clear and DeletePattern: it collects each match once, in any order. */
    method Scan(now: int, matches: Key -> bool) returns (keys: seq<Key>)
      ensures (set k | k in keys) == Matching(store, now, matches)
      ensures |keys| == |Matching(store, now, matches)|
    {
      keys := [];
      ghost var found: set<Key> := {};
      var rest := store.Keys;
      while rest != {}
        invariant rest <= store.Keys
        invariant forall k :: k in found <==> k in store && k !in rest && Visible(store[k], now) && matches(k)
        invariant forall k :: k in found <==> k in keys
        invariant |keys| == |found|
        decreases rest
      {
        var k :| k in rest;
        rest := rest - {k};
        if Visible(store[k], now) && matches(k) {
          keys := keys + [k];
          found := found + {k};
        }
      }
      assert found == Matching(store, now, matches);
    }

    method DeletePattern(matches: Key -> bool, now: int, io: Io) returns (r: Result<()>)
      modifies this
      ensures r.Ok? <==> !io.readFails && !(io.writeFails && Matching(old(store), now, matches) != {})
      ensures r.Err? ==> State() == old(State()) && r == Err(Unavailable)
      ensures r.Ok? ==>
                && store == old(store) - Matching(old(store), now, matches)
                && deletes == old(deletes) + |Matching(old(store), now, matches)|
                && hits == old(hits) && misses == old(misses) && sets == old(sets)
    {
      if io.readFails {
        return Err(Unavailable);
      }
      var keys := Scan(now, matches);
      var found := set k | k in keys;
      if |keys| > 0 {
        assert keys[0] in found;
        if io.writeFails {
          return Err(Unavailable);
        }
        store := store - found;
        deletes := deletes + |keys|;
      }
      return Ok(());
    }

    method Clear(now: int, io: Io) returns (r: Result<()>)
      modifies this
      ensures r.Ok? <==> !io.readFails && !(io.writeFails && exists k :: k in old(store) && Visible(old(store)[k], now))
      ensures r.Err? ==> State() == old(State()) && r == Err(Unavailable)
      ensures r.Ok? ==> State().counters == NO_COUNTS
      ensures r.Ok? ==> forall k ::
                  (k in store <==> k in old(store) && !Visible(old(store)[k], now))
                  && (k in store ==> store[k] == old(store)[k])
    {
      if io.readFails {
        return Err(Unavailable);
      }
      var keys := Scan(now, _ => true);
      var found := set k | k in keys;
      assert forall k :: k in found <==> k in store && Visible(store[k], now);
      if |keys| > 0 {
        assert keys[0] in found;
        if io.writeFails {
          return Err(Unavailable);
        }
        store := store - found;
      }
      hits, misses, sets, deletes := 0, 0, 0, 0;
      return Ok(());
    }
  }

  // ----- Reads and deadlines -----

  /** The Gets come one after the other. */
  ghost predicate InOrder(accesses: seq<Access>) {
    && (forall i | 0 <= i < |accesses| :: accesses[i].readAt <= accesses[i].computedAt <= accesses[i].setAt)
    && (forall i, j | 0 <= i < j < |accesses| :: accesses[i].setAt <= accesses[j].readAt)
  }

  function ReadAll(slot: Option<Stored>, accesses: seq<Access>): Option<Stored> {
    if accesses == [] then slot
    else ReadSlot(ReadAll(slot, accesses[..|accesses| - 1]), accesses[|accesses| - 1])
  }

  /** When the record should go. */
  function Expiry(e: Entry): int { e.createdAt + e.ttl }

  /** How many of the Gets worked out the time left before it had run out. */
  function Early(accesses: seq<Access>, expiry: int): (m: nat)
    ensures m <= |accesses|
  {
    if accesses == [] then 0
    else
      var last := accesses[|accesses| - 1];
      Early(accesses[..|accesses| - 1], expiry) + if last.computedAt < expiry then 1 else 0
  }

  /** How late the command that came before access m was executed; first is the delay of the SET. */
  function Delay(first: nat, accesses: seq<Access>, m: nat): int
    requires m <= |accesses|
  {
    if m == 0 then first else accesses[m - 1].setAt - accesses[m - 1].computedAt
  }

  lemma InOrderBefore(accesses: seq<Access>, n: nat)
    requires InOrder(accesses) && n <= |accesses|
    ensures InOrder(accesses[..n])
  {
  }

  lemma {:induction false} AllEarly(accesses: seq<Access>, expiry: int)
    requires forall a | a in accesses :: a.computedAt < expiry
    ensures Early(accesses, expiry) == |accesses|
  {
    if accesses != [] {
      AllEarly(accesses[..|accesses| - 1], expiry);
    }
  }

  lemma {:induction false} EarlyOnesComeFirst(accesses: seq<Access>, expiry: int)
    requires InOrder(accesses)
    ensures forall i | 0 <= i < |accesses| :: accesses[i].computedAt < expiry <==> i < Early(accesses, expiry)
  {
    if accesses != [] {
      var n := |accesses| - 1;
      if accesses[n].computedAt < expiry {
        AllEarly(accesses, expiry);
      } else {
        InOrderBefore(accesses, n);
        EarlyOnesComeFirst(accesses[..n], expiry);
        assert forall i | 0 <= i < n :: accesses[..n][i] == accesses[i];
      }
    }
  }

  /** The deadline after a series of Gets, for a record stored with a positive TTL by a SET executed
      first nanoseconds late. Each early Get sets it anew to the expiry plus its own delay, so delays do
      not add up. The first Get that is not early strips the record of its deadline for good if its read
      still saw the record; if not, nothing happens any more. */
  function DeadlineAfter(expiry: int, first: nat, accesses: seq<Access>): Option<int> {
    var m := Early(accesses, expiry);
    var deadline := expiry + Delay(first, accesses, m);
    if m < |accesses| && accesses[m].readAt < deadline then None else Some(deadline)
  }

  lemma OneMoreRead(expiry: int, first: nat, accesses: seq<Access>)
    requires accesses != [] && InOrder(accesses)
    ensures
      var a, before := accesses[|accesses| - 1], DeadlineAfter(expiry, first, accesses[..|accesses| - 1]);
      DeadlineAfter(expiry, first, accesses) ==
      if before.Some? && before.value <= a.readAt then before
      else if before.None? || expiry <= a.computedAt then None
      else Some(expiry + a.setAt - a.computedAt)
    ensures DeadlineAfter(expiry, first, accesses[..|accesses| - 1]).None? ==>
              expiry <= accesses[|accesses| - 1].computedAt
  {
    var n := |accesses| - 1;
    var init := accesses[..n];
    assert forall i | 0 <= i < n :: init[i] == accesses[i];
    EarlyOnesComeFirst(accesses, expiry);
    EarlyOnesComeFirst(init, expiry);
    var m := Early(init, expiry);
    assert Delay(first, init, m) == Delay(first, accesses, m);
    if accesses[n].computedAt < expiry {
      assert m == n;
    } else if m < n {
      assert accesses[m].setAt <= accesses[n].readAt;
    }
  }

  lemma OneRead(s: Stored, a: Access)
    requires s.entry.ttl > 0
    ensures
      var after := ReadSlot(Some(s), a);
      && after.Some?
      && SamePayload(after.value.entry, s.entry)
      && after.value.deadline ==
         if s.deadline.Some? && s.deadline.value <= a.readAt then s.deadline
         else if Expiry(s.entry) <= a.computedAt then None
         else Some(Expiry(s.entry) + a.setAt - a.computedAt)
  {
  }

  /** The record is there with its payload and this deadline. */
  predicate Kept(slot: Option<Stored>, s: Stored, deadline: Option<int>) {
    slot.Some? && SamePayload(slot.value.entry, s.entry) && slot.value.deadline == deadline
  }

  lemma KeptByRead(slot: Option<Stored>, s: Stored, a: Access, deadline: Option<int>, next: Option<int>)
    requires Kept(slot, s, deadline) && s.entry.ttl > 0
    requires next == if deadline.Some? && deadline.value <= a.readAt then deadline
                     else if deadline.None? || Expiry(s.entry) <= a.computedAt then None
                     else Some(Expiry(s.entry) + a.setAt - a.computedAt)
    requires deadline.None? ==> Expiry(s.entry) <= a.computedAt
    ensures Kept(ReadSlot(slot, a), s, next)
  {
    OneRead(slot.value, a);
  }

  lemma {:induction false} ReadsAndDeadline(s: Stored, first: nat, accesses: seq<Access>)
    requires s.entry.ttl > 0 && InOrder(accesses) && s.deadline == Some(Expiry(s.entry) + first)
    ensures Kept(ReadAll(Some(s), accesses), s, DeadlineAfter(Expiry(s.entry), first, accesses))
  {
    if accesses != [] {
      var n := |accesses| - 1;
      InOrderBefore(accesses, n);
      ReadsAndDeadline(s, first, accesses[..n]);
      OneMoreRead(Expiry(s.entry), first, accesses);
      KeptByRead(ReadAll(Some(s), accesses[..n]), s, accesses[n],
                 DeadlineAfter(Expiry(s.entry), first, accesses[..n]), DeadlineAfter(Expiry(s.entry), first, accesses));
    }
  }

  /** No Get reads the record before its expiry and writes it back at or after it. */
  ghost predicate NoneStraddles(accesses: seq<Access>, expiry: int) {
    forall i | 0 <= i < |accesses| :: !(accesses[i].readAt < expiry <= accesses[i].setAt)
  }

  lemma DeadlineWithoutDelays(accesses: seq<Access>, expiry: int)
    requires InOrder(accesses)
    requires forall i | 0 <= i < |accesses| :: accesses[i].computedAt == accesses[i].setAt
    ensures DeadlineAfter(expiry, 0, accesses) == if NoneStraddles(accesses, expiry) then Some(expiry) else None
  {
    EarlyOnesComeFirst(accesses, expiry);
    var m := Early(accesses, expiry);
    assert Delay(0, accesses, m) == 0;
    if m < |accesses| {
      if accesses[m].readAt < expiry {
        assert expiry <= accesses[m].setAt;
      } else {
        forall i | m < i < |accesses|
          ensures expiry <= accesses[i].readAt
        {
          assert accesses[m].setAt <= accesses[i].readAt;
        }
      }
    }
  }

  /** When every command is executed at the instant it was made for, the deadline is exactly
      createdAt + ttl after any series of Gets iff none of them straddles it, and else there is none. */
  lemma ReadsKeepTheDeadline(e: Entry, accesses: seq<Access>)
    requires e.ttl > 0 && InOrder(accesses)
    requires forall i | 0 <= i < |accesses| :: accesses[i].computedAt == accesses[i].setAt
    ensures
      var after := ReadAll(Some(Stored(e, Some(Expiry(e)))), accesses);
      && after.Some?
      && SamePayload(after.value.entry, e)
      && after.value.deadline == if NoneStraddles(accesses, Expiry(e)) then Some(Expiry(e)) else None
  {
    ReadsAndDeadline(Stored(e, Some(Expiry(e))), 0, accesses);
    DeadlineWithoutDelays(accesses, Expiry(e));
  }

  /** A Get that still sees the record but works out the time left too late makes it visible for ever. */
  lemma StraddlingReadIsForever(e: Entry, deadline: int, a: Access)
    requires e.ttl > 0 && a.readAt < deadline && Expiry(e) <= a.computedAt
    ensures
      var after := ReadSlot(Some(Stored(e, Some(deadline))), a);
      after.Some? && forall t :: Visible(after.value, t)
  {
    assert Armed(Expiry(e) - a.computedAt, a.setAt) == None;
  }

  // ----- Overlapping Gets -----

  /** One step of a Get among others on its key: its read, or the write-back of the i-th that saw the
      record and has not written it back. */
  datatype Turn = Look(at: int) | Store(i: nat, computedAt: int, setAt: int)

  datatype Race = Race(stored: Stored, pending: seq<Entry>)

  predicate Enabled(r: Race, t: Turn) {
    t.Store? ==> t.i < |r.pending|
  }

  function Next(r: Race, t: Turn): Race
    requires Enabled(r, t)
  {
    match t
    case Look(at) => if Visible(r.stored, at) then r.(pending := r.pending + [r.stored.entry]) else r
    case Store(i, computedAt, setAt) =>
      Race(WriteBack(r.pending[i], computedAt, setAt), r.pending[..i] + r.pending[i + 1..])
  }

  function RunTurns(s: Stored, turns: seq<Turn>): Option<Race> {
    if turns == [] then Some(Race(s, []))
    else
      match RunTurns(s, turns[..|turns| - 1])
      case None => None
      case Some(r) => if Enabled(r, turns[|turns| - 1]) then Some(Next(r, turns[|turns| - 1])) else None
  }

  function LastStore(turns: seq<Turn>): (last: Option<Turn>)
    ensures last.Some? ==> last.value.Store?
  {
    if turns == [] then None
    else if turns[|turns| - 1].Store? then Some(turns[|turns| - 1])
    else LastStore(turns[..|turns| - 1])
  }

  /** However Gets overlap, the payload stays, and the deadline is decided by the last write-back alone:
      the expiry plus its delay if it was worked out in time, else none. */
  lemma {:induction false} OverlappingReads(s: Stored, turns: seq<Turn>)
    requires RunTurns(s, turns).Some?
    ensures
      var r := RunTurns(s, turns).value;
      && SamePayload(r.stored.entry, s.entry)
      && (forall i | 0 <= i < |r.pending| :: SamePayload(r.pending[i], s.entry))
      && r.stored.deadline ==
         match LastStore(turns)
         case None => s.deadline
         case Some(last) =>
           if last.computedAt < Expiry(s.entry) then Some(Expiry(s.entry) + last.setAt - last.computedAt) else None
  {
    if turns != [] {
      OverlappingReads(s, turns[..|turns| - 1]);
    }
  }

  // ----- Whole runs -----

  datatype Op =
    | Get(key: Key, a: Access, io: Io)
    | Set(key: Key, value: Value, ttl: int, now: int, io: Io)
    | SetWithVersion(key: Key, value: Value, ttl: int, version: int, now: int, io: Io)
    | Delete(key: Key, now: int, io: Io)
    | Drop(keys: set<Key>, now: int)      // DeletePattern, Clear, eviction

  function Apply(l: Level, op: Op): Level {
    match op
    case Get(k, a, io) => AfterGet(l, k, a, io)
    case Set(k, v, ttl, now, io) => AfterSet(l, k, v, ttl, now, io)
    case SetWithVersion(k, v, ttl, version, now, io) => AfterSetWithVersion(l, k, v, ttl, version, now, io)
    case Delete(k, now, io) => AfterDelete(l, k, now, io)
    case Drop(keys, _) => l.(store := l.store - keys)
  }

  function Run(ops: seq<Op>): Level {
    if ops == [] then EMPTY else Apply(Run(ops[..|ops| - 1]), ops[|ops| - 1])
  }

  // ----- What the level holds, read off the run -----

  /** What a Set or SetWithVersion that was accepted has written under its key. */
  datatype Record = Record(value: Value, ttl: int, version: int, now: int)

  function Accepted(op: Op, k: Key): Option<Record> {
    match op
    case Set(key, v, ttl, now, io) =>
      if key == k && k != "" && v != Nil && !io.writeFails then Some(Record(v, ttl, 1, now)) else None
    case SetWithVersion(key, v, ttl, version, now, io) =>
      if key == k && k != "" && !io.writeFails then Some(Record(v, ttl, version, now)) else None
    case _ => None
  }

  predicate Removes(op: Op, k: Key) {
    (op.Delete? && op.key == k && !op.io.writeFails) || (op.Drop? && k in op.keys)
  }

  /** What was last written under k, if it has not been removed since. */
  function LiveRecord(ops: seq<Op>, k: Key): Option<Record> {
    if ops == [] then None
    else
      var op := ops[|ops| - 1];
      if Accepted(op, k).Some? then Accepted(op, k)
      else if k != "" && Removes(op, k) then None
      else LiveRecord(ops[..|ops| - 1], k)
  }

  predicate Holds(s: Stored, k: Key, r: Record) {
    s.entry.key == k && s.entry.value == r.value && s.entry.ttl == r.ttl && s.entry.version == r.version
    && s.entry.createdAt == r.now
  }

  lemma {:induction false} NoRecordOfTheEmptyKey(ops: seq<Op>)
    ensures LiveRecord(ops, "").None?
  {
    if ops != [] {
      NoRecordOfTheEmptyKey(ops[..|ops| - 1]);
    }
  }

  /** Over every run the level holds, for each key, exactly that record, expired or not, whatever was read
      and whatever happened to other keys. */
  lemma {:induction false} HoldsTheLiveRecord(ops: seq<Op>, k: Key)
    ensures k in Run(ops).store <==> LiveRecord(ops, k).Some?
    ensures k in Run(ops).store ==> Holds(Run(ops).store[k], k, LiveRecord(ops, k).value)
  {
    if ops != [] {
      HoldsTheLiveRecord(ops[..|ops| - 1], k);
      NoRecordOfTheEmptyKey(ops);
      NoRecordOfTheEmptyKey(ops[..|ops| - 1]);
    }
  }

  /** The Gets of k that get through, in order. */
  function AccessesOf(ops: seq<Op>, k: Key): seq<Access> {
    if ops == [] then []
    else
      var op := ops[|ops| - 1];
      AccessesOf(ops[..|ops| - 1], k)
      + if op.Get? && op.key == k && op.io == HEALTHY then [op.a] else []
  }

  /** Nothing writes or removes k. */
  predicate OnlyRead(ops: seq<Op>, k: Key) {
    forall op | op in ops :: Accepted(op, k).None? && !Removes(op, k)
  }

  lemma OneOpOnSlot(l: Level, op: Op, k: Key)
    requires Accepted(op, k).None? && !Removes(op, k) && k != ""
    ensures Lookup(Apply(l, op).store, k) ==
            if op.Get? && op.key == k && op.io == HEALTHY then ReadSlot(Lookup(l.store, k), op.a)
            else Lookup(l.store, k)
  {
  }

  /** The same from any level. */
  function RunFrom(l: Level, ops: seq<Op>): Level {
    if ops == [] then l else Apply(RunFrom(l, ops[..|ops| - 1]), ops[|ops| - 1])
  }

  lemma {:induction false} RunIsFromEmpty(ops: seq<Op>)
    ensures Run(ops) == RunFrom(EMPTY, ops)
  {
    if ops != [] {
      RunIsFromEmpty(ops[..|ops| - 1]);
    }
  }

  lemma {:induction false} ReadsOnly(l: Level, since: seq<Op>, k: Key)
    requires OnlyRead(since, k) && k != ""
    ensures Lookup(RunFrom(l, since).store, k) == ReadAll(Lookup(l.store, k), AccessesOf(since, k))
  {
    if since != [] {
      var init, op := since[..|since| - 1], since[|since| - 1];
      assert since == init + [op];
      ReadsOnly(l, init, k);
      OneOpOnSlot(RunFrom(l, init), op, k);
      if op.Get? && op.key == k && op.io == HEALTHY {
        assert AccessesOf(since, k) == AccessesOf(init, k) + [op.a];
        assert AccessesOf(since, k)[..|AccessesOf(init, k)|] == AccessesOf(init, k);
      } else {
        assert AccessesOf(since, k) == AccessesOf(init, k);
      }
    }
  }

  function Made(k: Key, r: Record): Stored {
    Stored(Entry(k, r.value, r.ttl, r.now, r.now, 0, r.version), if r.ttl > 0 then Some(r.now + r.ttl) else None)
  }

  lemma AcceptedIsStored(l: Level, op: Op, k: Key)
    requires Accepted(op, k).Some?
    ensures k != "" && Lookup(Apply(l, op).store, k) == Some(Made(k, Accepted(op, k).value))
  {
  }

  /** A Get at t would answer with this value, iff t is before the deadline or there is none. */
  predicate AnswersBefore(l: Level, k: Key, t: int, value: Value, deadline: Option<int>) {
    GetAnswer(l, k, t, HEALTHY) == if deadline == None || t < deadline.value then Ok(value) else Err(CacheNotFound)
  }

  predicate IsSlot(slot: Option<Stored>, value: Value, deadline: Option<int>) {
    slot.Some? && slot.value.entry.value == value && slot.value.deadline == deadline
  }

  lemma FreshRecordAfterReads(k: Key, r: Record, accesses: seq<Access>)
    requires r.ttl > 0 && InOrder(accesses)
    ensures IsSlot(ReadAll(Some(Made(k, r)), accesses), r.value, DeadlineAfter(r.now + r.ttl, 0, accesses))
  {
    ReadsAndDeadline(Made(k, r), 0, accesses);
  }

  lemma AnswerOfSlot(l: Level, k: Key, t: int, value: Value, deadline: Option<int>)
    requires k != "" && IsSlot(Lookup(l.store, k), value, deadline)
    ensures AnswersBefore(l, k, t, value, deadline)
  {
  }

  lemma RecordAfterReads(l: Level, op: Op, since: seq<Op>, k: Key)
    requires Accepted(op, k).Some? && Accepted(op, k).value.ttl > 0
    requires OnlyRead(since, k) && InOrder(AccessesOf(since, k))
    ensures k != ""
    ensures
      var r := Accepted(op, k).value;
      IsSlot(Lookup(RunFrom(Apply(l, op), since).store, k), r.value,
             DeadlineAfter(r.now + r.ttl, 0, AccessesOf(since, k)))
  {
    AcceptedIsStored(l, op, k);
    ReadsOnly(Apply(l, op), since, k);
    FreshRecordAfterReads(k, Accepted(op, k).value, AccessesOf(since, k));
  }

  /** From any level: after a Set of k with a positive TTL, while k is only read, whatever happens to other
      keys, a Get of k answers with its value exactly before the deadline that its reads give it. */
  lemma AnswersUntilTheDeadline(l: Level, op: Op, since: seq<Op>, k: Key, t: int)
    requires Accepted(op, k).Some? && Accepted(op, k).value.ttl > 0
    requires OnlyRead(since, k) && InOrder(AccessesOf(since, k))
    ensures
      var r := Accepted(op, k).value;
      AnswersBefore(RunFrom(Apply(l, op), since), k, t, r.value,
                    DeadlineAfter(r.now + r.ttl, 0, AccessesOf(since, k)))
  {
    var r := Accepted(op, k).value;
    RecordAfterReads(l, op, since, k);
    AnswerOfSlot(RunFrom(Apply(l, op), since), k, t, r.value,
                 DeadlineAfter(r.now + r.ttl, 0, AccessesOf(since, k)));
  }

  // ----- Counters over whole runs -----

  function Tally(ops: seq<Op>): Counters {
    if ops == [] then Counters(0, 0, 0, 0)
    else
      var before, op := ops[..|ops| - 1], ops[|ops| - 1];
      var c := Tally(before);
      match op
      case Get(k, a, io) =>
        if k == "" then c
        else if GetAnswer(Run(before), k, a.readAt, io).Ok? then c.(hits := c.hits + 1)
        else c.(misses := c.misses + 1)
      case Set(k, _, _, _, _) => if Accepted(op, k).Some? then c.(sets := c.sets + 1) else c
      case SetWithVersion(k, _, _, _, _, _) => if Accepted(op, k).Some? then c.(sets := c.sets + 1) else c
      case Delete(k, now, io) =>
        if k != "" && !io.writeFails && GetAnswer(Run(before), k, now, HEALTHY).Ok? then c.(deletes := c.deletes + 1)
        else c
      case Drop(_, _) => c
  }

  /** Hits are the Gets that answered, misses those with a key that did not, sets the accepted ones,
      deletes those of a key that would have been answered. */
  lemma {:induction false} CountersTally(ops: seq<Op>)
    ensures Run(ops).counters == Tally(ops)
  {
    if ops != [] {
      CountersTally(ops[..|ops| - 1]);
    }
  }

  // ----- Deadlines when commands take no time -----

  /** The record's deadline is the one a re-arming at this instant would give, or it can no longer be
      seen. */
  predicate WellArmed(s: Stored, now: int) {
    Visible(s, now) ==> s.deadline == Armed(Expiry(s.entry) - now, now)
  }

  function Time(op: Op): int {
    if op.Get? then op.a.setAt else op.now
  }

  /** Every command is executed at the instant it was made for, one after the other, all by now. */
  ghost predicate Prompt(ops: seq<Op>, now: int) {
    && (forall i | 0 <= i < |ops| :: Time(ops[i]) <= now && (ops[i].Get? ==> ops[i].a == At(Time(ops[i]))))
    && (forall i, j | 0 <= i < j < |ops| :: Time(ops[i]) <= Time(ops[j]))
  }

  ghost predicate AllWellArmed(store: map<Key, Stored>, now: int) {
    forall k | k in store :: WellArmed(store[k], now)
  }

  lemma {:induction false} EveryRecordIsWellArmed(ops: seq<Op>, now: int)
    requires Prompt(ops, now)
    ensures AllWellArmed(Run(ops).store, now)
  {
    if ops != [] {
      var n := |ops| - 1;
      var before := ops[..n];
      assert forall i | 0 <= i < n :: before[i] == ops[i];
      EveryRecordIsWellArmed(before, Time(ops[n]));
      OneOpKeepsArmed(Run(before), ops[n], now);
    }
  }

  lemma StaysArmed(s: Stored, now: int, later: int)
    requires WellArmed(s, now) && now <= later
    ensures WellArmed(s, later)
  {
  }

  lemma NewIsArmed(k: Key, v: Value, ttl: int, version: int, e: Entry, now: int)
    ensures WellArmed(NewStored(k, v, ttl, version, now), now)
    ensures WellArmed(WriteBack(e, now, now), now)
  {
    assert NewStored(k, v, ttl, version, now).entry.createdAt == now;
  }

  /** What an operation leaves under a key is what was there, or new, or written back. */
  lemma OneOpLeaves(l: Level, op: Op, k: Key)
    requires k in Apply(l, op).store
    ensures
      var after := Apply(l, op).store[k];
      || (k in l.store && after == l.store[k])
      || (op.Get? && exists e :: after == WriteBack(e, op.a.computedAt, op.a.setAt))
      || (op.Set? && after == NewStored(op.key, op.value, op.ttl, 1, op.now))
      || (op.SetWithVersion? && after == NewStored(op.key, op.value, op.ttl, op.version, op.now))
  {
  }

  lemma OneOpKeepsArmed(l: Level, op: Op, now: int)
    requires AllWellArmed(l.store, Time(op)) && Time(op) <= now && (op.Get? ==> op.a == At(Time(op)))
    ensures AllWellArmed(Apply(l, op).store, now)
  {
    var l', at := Apply(l, op), Time(op);
    forall k | k in l'.store
      ensures WellArmed(l'.store[k], now)
    {
      OneOpLeaves(l, op, k);
      if k in l.store && l'.store[k] == l.store[k] {
      } else if op.Get? {
        var e :| l'.store[k] == WriteBack(e, at, at);
        NewIsArmed("", Nil, 0, 0, e, at);
      } else if op.Set? {
        NewIsArmed(op.key, op.value, op.ttl, 1, NewEntry("", Nil, 0, 0, 0), at);
      } else {
        NewIsArmed(op.key, op.value, op.ttl, op.version, NewEntry("", Nil, 0, 0, 0), at);
      }
      StaysArmed(l'.store[k], at, now);
    }
  }
}
