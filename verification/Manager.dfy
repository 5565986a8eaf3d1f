/** The manager that puts the first level in front of the second (internal/cache/manager.go). */
module Manager {
  import opened Entries
  import L1 = BigCache
  import L2 = RedisCache

  datatype Strategy = WriteThrough | WriteBack | ReadThrough | CacheAside

  /** A goroutine that was started and nobody waits for. */
  datatype Task =
    | FillL1(key: Key, value: Value)
    | StoreL2(key: Key, value: Value, ttl: int)

  /** When the steps of one Get happen, and how the backends behave. */
  datatype GetEnv = GetEnv(l1At: int, l1Io: Io, l2: L2.Access, l2Io: Io)

  /** The same for the two halves of Set, Delete and Clear; l2First says which half replies first. */
  datatype PairEnv = PairEnv(l1At: int, l1Io: Io, l2At: int, l2Io: Io, l2First: bool)

  ghost predicate At(env: GetEnv, now: int) {
    env == GetEnv(now, HEALTHY, L2.At(now), HEALTHY)
  }

  /** What the manager answers for a key at one instant with healthy backends. */
  function Answer(l1: map<Key, Entry>, l2: map<Key, L2.Stored>, key: Key, now: int): Result<Value> {
    if key == "" then Err(InvalidKey)
    else
      var first := L1.ReadAnswer(Lookup(l1, key), now);
      if first.Ok? then first else L2.ReadAnswer(Lookup(l2, key), now)
  }

  /** What one call on key leaves under every other key: both entries, and so every answer at any time. */
  ghost predicate OthersAlone(
    key: Key, l1: map<Key, Entry>, l2: map<Key, L2.Stored>, l1': map<Key, Entry>, l2': map<Key, L2.Stored>)
  {
    && (forall other | other != key :: Lookup(l1', other) == Lookup(l1, other))
    && (forall other | other != key :: Lookup(l2', other) == Lookup(l2, other))
    && (forall other, now | other != key :: Answer(l1', l2', other, now) == Answer(l1, l2, other, now))
  }

  predicate Tolerated(reply: Result<()>, missingIsFine: bool) {
    reply.Ok? || (missingIsFine && reply.error == CacheNotFound)
  }

  /** Drains the reply channel: the first error that counts, if there is one. */
  method Collect(replies: seq<Result<()>>, missingIsFine: bool) returns (r: Result<()>)
    ensures r == Ok(()) || r.Err?
    ensures r.Ok? <==> forall i | 0 <= i < |replies| :: Tolerated(replies[i], missingIsFine)
    ensures r.Ok? && !missingIsFine ==> forall i | 0 <= i < |replies| :: replies[i].Ok?
    ensures r.Ok? ==> forall i | 0 <= i < |replies| :: replies[i].Ok? || replies[i].error == CacheNotFound
    ensures r.Err? && missingIsFine ==> r.error != CacheNotFound
    ensures r.Err? ==> exists i | 0 <= i < |replies| ::
                && replies[i] == r
                && !Tolerated(r, missingIsFine)
                && forall j | 0 <= j < i :: Tolerated(replies[j], missingIsFine)
  {
    var errors: seq<Result<()>> := [];
    ghost var first := 0;
    for i := 0 to |replies|
      invariant errors == [] <==> forall j | 0 <= j < i :: Tolerated(replies[j], missingIsFine)
      invariant errors != [] ==>
                  && 0 <= first < i
                  && errors[0] == replies[first]
                  && !Tolerated(replies[first], missingIsFine)
                  && forall j | 0 <= j < first :: Tolerated(replies[j], missingIsFine)
    {
      if replies[i].Err? && !(missingIsFine && replies[i].error == CacheNotFound) {
        if errors == [] {
          first := i;
        }
        errors := errors + [replies[i]];
      }
    }
    return if |errors| > 0 then errors[0] else Ok(());
  }

  class CacheManagerImpl {
    const l1: L1.BigCacheImpl
    const l2: L2.RedisCacheImpl
    const defaultTTL: int
    var strategy: Strategy
    var background: seq<Task>

    constructor (defaultTTL: int)
      ensures fresh(l1) && fresh(l2)
      ensures l1.State() == L1.EMPTY && l2.State() == L2.EMPTY
      ensures this.defaultTTL == defaultTTL && strategy == WriteThrough && background == []
    {
      this.defaultTTL := defaultTTL;
      strategy := WriteThrough;
      background := [];
      var first := new L1.BigCacheImpl();
      var second := new L2.RedisCacheImpl();
      l1, l2 := first, second;
    }

    method Get(key: Key, env: GetEnv) returns (r: Result<Value>)
      modifies this`background, l1, l2
      ensures l1.State() == L1.AfterGet(old(l1.State()), key, env.l1At, env.l1Io)
      ensures
        var first := L1.GetAnswer(old(l1.State()), key, env.l1At, env.l1Io);
        var second := L2.GetAnswer(old(l2.State()), key, env.l2.readAt, env.l2Io);
        if key == "" || first.Ok? then
          r == first && l2.State() == old(l2.State()) && background == old(background)
        else
          && r == second
          && l2.State() == L2.AfterGet(old(l2.State()), key, env.l2, env.l2Io)
          && background == old(background) + if r.Ok? then [FillL1(key, r.value)] else []
      ensures forall now | At(env, now) :: r == Answer(old(l1.cache), old(l2.store), key, now)
      ensures OthersAlone(key, old(l1.cache), old(l2.store), l1.cache, l2.store)
    {
      if key == "" {
        return Err(InvalidKey);
      }
      r := l1.Get(key, env.l1At, env.l1Io);
      if r.Ok? {
        return;
      }
      r := l2.Get(key, env.l2, env.l2Io);
      if r.Ok? {
        background := background + [FillL1(key, r.value)];
      }
    }

    /** Lets the i-th detached goroutine run. */
    method RunTask(i: nat, now: int, io: Io)
      requires i < |background|
      modifies this`background, l1, l2
      ensures background == old(background)[..i] + old(background)[i + 1..]
      ensures match old(background[i])
              case FillL1(key, value) =>
                && l1.State() == L1.AfterSet(old(l1.State()), key, value, defaultTTL, now, io)
                && l2.State() == old(l2.State())
              case StoreL2(key, value, ttl) =>
                && l1.State() == old(l1.State())
                && l2.State() == L2.AfterSet(old(l2.State()), key, value, ttl, now, io)
      ensures OthersAlone(old(background[i]).key, old(l1.cache), old(l2.store), l1.cache, l2.store)
    {
      var task := background[i];
      background := background[..i] + background[i + 1..];
      match task
      case FillL1(key, value) => var _ := l1.Set(key, value, defaultTTL, now, io);
      case StoreL2(key, value, ttl) => var _ := l2.Set(key, value, ttl, now, io);
    }

    method Set(key: Key, value: Value, ttl: int, env: PairEnv) returns (r: Result<()>)
      modifies this`background, l1, l2
      ensures r == if key == "" then Err(InvalidKey)
                   else if value == Nil then Err(InvalidValue)
                   else if env.l1Io.writeFails || (strategy != WriteBack && env.l2Io.writeFails) then Err(Unavailable)
                   else Ok(())
      ensures
        var ttl' := if ttl == 0 then defaultTTL else ttl;
        && l1.State() == L1.AfterSet(old(l1.State()), key, value, ttl', env.l1At, env.l1Io)
        && (if strategy == WriteBack then
              && l2.State() == old(l2.State())
              && background == old(background) + if r.Ok? then [StoreL2(key, value, ttl')] else []
            else
              && l2.State() == L2.AfterSet(old(l2.State()), key, value, ttl', env.l2At, env.l2Io)
              && background == old(background))
      ensures OthersAlone(key, old(l1.cache), old(l2.store), l1.cache, l2.store)
    {
      if key == "" {
        return Err(InvalidKey);
      }
      if value == Nil {
        return Err(InvalidValue);
      }
      var ttl' := ttl;
      if ttl' == 0 {
        ttl' := defaultTTL;
      }
      match strategy
      case WriteBack => r := SetWriteBack(key, value, ttl', env);
      case WriteThrough => r := SetWriteThrough(key, value, ttl', env);
      case ReadThrough => r := SetWriteThrough(key, value, ttl', env);
      case CacheAside => r := SetWriteThrough(key, value, ttl', env);
    }

    method SetWriteThrough(key: Key, value: Value, ttl: int, env: PairEnv) returns (r: Result<()>)
      requires key != "" && value != Nil
      modifies l1, l2
      ensures r == if env.l1Io.writeFails || env.l2Io.writeFails then Err(Unavailable) else Ok(())
      ensures l1.State() == L1.AfterSet(old(l1.State()), key, value, ttl, env.l1At, env.l1Io)
      ensures l2.State() == L2.AfterSet(old(l2.State()), key, value, ttl, env.l2At, env.l2Io)
    {
      var reply1 := l1.Set(key, value, ttl, env.l1At, env.l1Io);
      var reply2 := l2.Set(key, value, ttl, env.l2At, env.l2Io);
      var replies := if env.l2First then [reply2, reply1] else [reply1, reply2];
      r := Collect(replies, false);
      assert r.Ok? <==> Tolerated(replies[0], false) && Tolerated(replies[1], false);
      assert r.Err? ==> r == replies[0] || r == replies[1];
    }

    method SetWriteBack(key: Key, value: Value, ttl: int, env: PairEnv) returns (r: Result<()>)
      requires key != "" && value != Nil
      modifies this`background, l1
      ensures r == if env.l1Io.writeFails then Err(Unavailable) else Ok(())
      ensures l1.State() == L1.AfterSet(old(l1.State()), key, value, ttl, env.l1At, env.l1Io)
      ensures background == old(background) + if r.Ok? then [StoreL2(key, value, ttl)] else []
    {
      r := l1.Set(key, value, ttl, env.l1At, env.l1Io);
      if r.Err? {
        return;
      }
      background := background + [StoreL2(key, value, ttl)];
    }

    method Delete(key: Key, env: PairEnv) returns (r: Result<()>)
      modifies l1, l2
      ensures r == if key == "" then Err(InvalidKey)
                   else if env.l1Io.writeFails || env.l2Io.writeFails then Err(Unavailable)
                   else Ok(())
      ensures l1.State() == L1.AfterDelete(old(l1.State()), key, env.l1Io)
      ensures l2.State() == L2.AfterDelete(old(l2.State()), key, env.l2At, env.l2Io)
      ensures OthersAlone(key, old(l1.cache), old(l2.store), l1.cache, l2.store)
      ensures r.Ok? ==> key !in l1.cache && key !in l2.store
    {
      if key == "" {
        return Err(InvalidKey);
      }
      var reply1 := l1.Delete(key, env.l1Io);
      var reply2 := l2.Delete(key, env.l2At, env.l2Io);
      var replies := if env.l2First then [reply2, reply1] else [reply1, reply2];
      r := Collect(replies, true);
      assert r.Ok? <==> Tolerated(replies[0], true) && Tolerated(replies[1], true);
      assert r.Err? ==> r == replies[0] || r == replies[1];
    }

    method Clear(env: PairEnv) returns (r: Result<()>)
      modifies l1, l2
      ensures l1.State() == L1.AfterClear(old(l1.State()), env.l1Io)
      ensures r.Ok? ==> l1.State() == L1.EMPTY && l2.State().counters == NO_COUNTS
      ensures r.Ok? ==> forall key, now | env.l2At <= now ::
                Answer(l1.cache, l2.store, key, now) == Err(if key == "" then InvalidKey else CacheNotFound)
      ensures env.l1Io == HEALTHY && env.l2Io == HEALTHY ==> r.Ok?
    {
      var reply1 := l1.Clear(env.l1Io);
      var reply2 := l2.Clear(env.l2At, env.l2Io);
      var replies := if env.l2First then [reply2, reply1] else [reply1, reply2];
      r := Collect(replies, false);
      assert r.Ok? <==> Tolerated(replies[0], false) && Tolerated(replies[1], false);
    }

    method Stats() returns (total: Counters, hitRatio: real)
      ensures total == Sum(l1.State().counters, l2.State().counters)
      ensures total.hits == l1.hits + l2.hits && total.misses == l1.misses + l2.misses
      ensures total.sets == l1.sets + l2.sets && total.deletes == l1.deletes + l2.deletes
      ensures hitRatio == Ratio(total)
      ensures hitRatio * (total.hits + total.misses) as real == total.hits as real
    {
      total := Counters(l1.hits + l2.hits, l1.misses + l2.misses, l1.sets + l2.sets, l1.deletes + l2.deletes);
      hitRatio := 0.0;
      var lookups := total.hits + total.misses;
      if lookups > 0 {
        hitRatio := total.hits as real / lookups as real;
      }
    }
  }

  // ----- What one call means for a later one -----

  /** After a write-through Set of both levels, and nothing else, the value is answered exactly until
      the later of the two levels lets it go. */
  lemma SetIsReadableUntil(
    l1: L1.Level, l2: L2.Level, key: Key, value: Value, ttl: int, at1: int, at2: int, now: int)
    requires key != "" && value != Nil && at1 <= now && at2 <= now
    ensures
      var l1' := L1.AfterSet(l1, key, value, ttl, at1, HEALTHY);
      var l2' := L2.AfterSet(l2, key, value, ttl, at2, HEALTHY);
      Answer(l1'.entries, l2'.store, key, now) ==
      if ttl > 0 && now > at1 + ttl && now >= at2 + ttl then Err(CacheNotFound) else Ok(value)
  {
  }

  /** No operation of a level touches another key than its own. */
  lemma LevelsLeaveOthers(
    l1: L1.Level, l2: L2.Level, key: Key, other: Key, value: Value, ttl: int, now: int, a: L2.Access, io: Io)
    requires other != key
    ensures Lookup(L1.AfterSet(l1, key, value, ttl, now, io).entries, other) == Lookup(l1.entries, other)
    ensures Lookup(L1.AfterGet(l1, key, now, io).entries, other) == Lookup(l1.entries, other)
    ensures Lookup(L1.AfterDelete(l1, key, io).entries, other) == Lookup(l1.entries, other)
    ensures Lookup(L2.AfterSet(l2, key, value, ttl, now, io).store, other) == Lookup(l2.store, other)
    ensures Lookup(L2.AfterGet(l2, key, a, io).store, other) == Lookup(l2.store, other)
    ensures Lookup(L2.AfterDelete(l2, key, now, io).store, other) == Lookup(l2.store, other)
  {
  }

  /** Delete undoes Set at once and leaves every other key's answer alone. */
  lemma DeleteUndoesSet(l1: L1.Level, l2: L2.Level, key: Key, other: Key, at: int, now: int)
    requires key != ""
    ensures
      var l1' := L1.AfterDelete(l1, key, HEALTHY);
      var l2' := L2.AfterDelete(l2, key, at, HEALTHY);
      && Answer(l1'.entries, l2'.store, key, now) == Err(CacheNotFound)
      && (other != key ==> Answer(l1'.entries, l2'.store, other, now) == Answer(l1.entries, l2.store, other, now))
  {
  }

  /** A Get and the fill it starts, both at one instant, change no answer at that instant. */
  lemma GetAndFillChangeNoAnswer(l1: L1.Level, l2: L2.Level, key: Key, other: Key, defaultTTL: int, now: int)
    ensures
      var l1' := L1.AfterGet(l1, key, now, HEALTHY);
      var missed := L1.GetAnswer(l1, key, now, HEALTHY).Err?;
      var l2' := if missed then L2.AfterGet(l2, key, L2.At(now), HEALTHY) else l2;
      var fetched := L2.GetAnswer(l2, key, now, HEALTHY);
      var l1'' := if missed && fetched.Ok? then L1.AfterSet(l1', key, fetched.value, defaultTTL, now, HEALTHY) else l1';
      Answer(l1''.entries, l2'.store, other, now) == Answer(l1.entries, l2.store, other, now)
  {
    if key != "" && key in l2.store {
      assert L2.Visible(L2.WriteBack(l2.store[key].entry, now, now), now);
    }
  }

  // ----- The combined hit ratio -----

  function Sum(a: Counters, b: Counters): Counters {
    Counters(a.hits + b.hits, a.misses + b.misses, a.sets + b.sets, a.deletes + b.deletes)
  }

  /** The ratio as reported, zero before the first lookup. */
  function Ratio(c: Counters): real {
    if LookupCount(c) > 0 then c.hits as real / LookupCount(c) as real else 0.0
  }

  lemma RatioBounds(c: Counters)
    ensures 0.0 <= Ratio(c) <= 1.0
    ensures Ratio(c) * LookupCount(c) as real == c.hits as real
  {
  }

  /** The combined ratio is the average of the two levels' ratios weighted by their lookups, so it
      lies between them; with lookups on one level only it is that level's ratio. */
  lemma CombinedHitRatio(a: Counters, b: Counters)
    ensures 0.0 <= Ratio(Sum(a, b)) <= 1.0
    ensures Ratio(Sum(a, b)) * (LookupCount(a) + LookupCount(b)) as real
         == Ratio(a) * LookupCount(a) as real + Ratio(b) * LookupCount(b) as real
    ensures LookupCount(a) > 0 && LookupCount(b) > 0 ==>
              && (Ratio(a) <= Ratio(b) ==> Ratio(a) <= Ratio(Sum(a, b)) <= Ratio(b))
              && (Ratio(b) <= Ratio(a) ==> Ratio(b) <= Ratio(Sum(a, b)) <= Ratio(a))
    ensures LookupCount(b) == 0 ==> Ratio(Sum(a, b)) == Ratio(a)
    ensures LookupCount(a) == 0 ==> Ratio(Sum(a, b)) == Ratio(b)
  {
    RatioBounds(a);
    RatioBounds(b);
    RatioBounds(Sum(a, b));
    if LookupCount(a) > 0 && LookupCount(b) > 0 {
      Between(Ratio(a), LookupCount(a) as real, Ratio(b), LookupCount(b) as real, Ratio(Sum(a, b)));
    }
  }

  lemma Between(x: real, n: real, y: real, m: real, z: real)
    requires n > 0.0 && m > 0.0 && z * (n + m) == x * n + y * m
    ensures x <= y ==> x <= z <= y
    ensures y <= x ==> y <= z <= x
  {
    assert (z - x) * (n + m) == (y - x) * m;
    assert (y - z) * (n + m) == (y - x) * n;
    SameSign(z - x, n + m);
    SameSign(y - z, n + m);
    SameSign(y - x, m);
    SameSign(y - x, n);
  }

  lemma SameSign(p: real, q: real)
    requires q > 0.0
    ensures p * q >= 0.0 <==> p >= 0.0
    ensures p * q <= 0.0 <==> p <= 0.0
  {
  }
}
