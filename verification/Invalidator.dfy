/** The invalidator with its tag lists as Go slices, appended to and spliced in place
    (internal/cache/invalidator.go). */
module Invalidator {
  import opened Entries
  import opened Tags
  import opened Manager
  import L1 = BigCache
  import L2 = RedisCache
  import Jobs

  /** A slice: the first len cells of a backing array, whose length is the capacity. */
  datatype Slice = Slice(buf: array<Key>, len: nat)
  {
    ghost predicate Valid() {
      len <= buf.Length
    }

    ghost function Items(): seq<Key>
      requires Valid()
      reads buf
    {
      buf[..len]
    }
  }

  /** append(s, k): in place while the capacity lasts, else into a larger array. */
  method Append(s: Slice, k: Key) returns (r: Slice)
    requires s.Valid()
    modifies s.buf
    ensures r.Valid() && (r.buf == s.buf || fresh(r.buf))
    ensures r.Items() == old(s.Items()) + [k]
  {
    if s.len < s.buf.Length {
      s.buf[s.len] := k;
      return Slice(s.buf, s.len + 1);
    }
    var bigger := new Key[2 * s.len + 1](_ => "");
    for i := 0 to s.len
      invariant bigger[..i] == s.buf[..i]
      invariant s.buf[..] == old(s.buf[..])
    {
      bigger[i] := s.buf[i];
    }
    bigger[s.len] := k;
    return Slice(bigger, s.len + 1);
  }

  /** append(s[:i], s[i+1:]...): shifts the tail down inside the same backing array. */
  method Splice(s: Slice, i: nat) returns (r: Slice)
    requires s.Valid() && i < s.len
    modifies s.buf
    ensures r.Valid() && r.buf == s.buf
    ensures r.Items() == old(s.Items())[..i] + old(s.Items())[i + 1..]
  {
    for j := i to s.len - 1
      invariant forall m | 0 <= m < j :: s.buf[m] == old(s.buf[if m < i then m else m + 1])
      invariant forall m | j <= m < s.len :: s.buf[m] == old(s.buf[m])
    {
      s.buf[j] := s.buf[j + 1];
    }
    return Slice(s.buf, s.len - 1);
  }

  class CacheInvalidatorImpl {
    const manager: CacheManagerImpl
    var taggedKeys: map<Tag, Slice>
    var scheduledInvalidations: map<Jobs.Id, Jobs.Job>

    ghost function Buffers(): set<array<Key>>
      reads this`taggedKeys
    {
      set t | t in taggedKeys :: taggedKeys[t].buf
    }

    /** No two tags share a backing array. */
    ghost predicate Apart()
      reads this`taggedKeys
    {
      && (forall t | t in taggedKeys :: taggedKeys[t].Valid())
      && (forall t, u | t in taggedKeys && u in taggedKeys && t != u :: taggedKeys[t].buf != taggedKeys[u].buf)
    }

    ghost function Contents(): Index
      requires Apart()
      reads this`taggedKeys, Buffers()
    {
      map t | t in taggedKeys :: taggedKeys[t].Items()
    }

    /** What every call leaves behind: lists are non-empty and duplicate-free, the empty key has no tag. */
    ghost predicate Valid()
      reads this`taggedKeys, Buffers()
    {
      Apart() && WellFormed(Contents()) && forall t :: !HasTag(Contents(), "", t)
    }

    /** All that an invalidation can change. */
    ghost function Data(): Jobs.Data
      requires Apart()
      reads this`taggedKeys, Buffers(), manager.l1, manager.l2
    {
      Jobs.Data(manager.l1.cache, manager.l2.store, Contents())
    }

    constructor (manager: CacheManagerImpl)
      ensures this.manager == manager && Valid() && Contents() == map[] && Buffers() == {}
      ensures scheduledInvalidations == map[]
    {
      this.manager := manager;
      taggedKeys := map[];
      scheduledInvalidations := map[];
    }

    /** Frame: if only the slice of t changed, and its array is the old one or a new one, no two tags
        share an array. */
    twostate lemma StillValid(t: Tag)
      requires old(Apart())
      requires taggedKeys.Keys == old(taggedKeys.Keys) + {t} && taggedKeys[t].Valid()
      requires forall u | u in old(taggedKeys) && u != t :: taggedKeys[u] == old(taggedKeys[u])
      requires fresh(taggedKeys[t].buf) || (t in old(taggedKeys) && taggedKeys[t].buf == old(taggedKeys[t].buf))
      ensures Apart() && fresh(Buffers() - old(Buffers()))
    {
      forall u | u in taggedKeys && u != t
        ensures taggedKeys[u] == old(taggedKeys[u]) && taggedKeys[u].buf in old(Buffers())
      {
        assert u in old(taggedKeys);
      }
    }

    /** And if every other list reads as before, the index differs at t only. */
    twostate lemma OneListChanged(t: Tag)
      requires old(Apart()) && Apart()
      requires taggedKeys.Keys == old(taggedKeys.Keys) + {t}
      requires forall u | u in old(taggedKeys) && u != t ::
                 u in taggedKeys && taggedKeys[u].Items() == old(taggedKeys[u].Items())
      ensures Contents() == old(Contents())[t := taggedKeys[t].Items()]
    {
      ghost var before, after := old(Contents()), Contents();
      assert after.Keys == before.Keys + {t};
      forall u | u in before && u != t
        ensures u in after && after[u] == before[u]
      {
        assert u in old(taggedKeys);
      }
      OneListDiffers(before, after, t);
    }

    /** One round of the loop in TagKey. */
    method TagOne(k: Key, t: Tag)
      requires Apart()
      modifies this`taggedKeys, Buffers()
      ensures Apart() && fresh(Buffers() - old(Buffers()))
      ensures Contents() == AddOne(old(Contents()), k, t)
    {
      var s: Slice;
      if t in taggedKeys {
        s := taggedKeys[t];
      } else {
        var empty := new Key[0];
        s := Slice(empty, 0);
      }
      assert s.Items() == ListOf(Contents(), t);
      var found := Contains(s, k);
      if !found {
        s := Append(s, k);
        taggedKeys := taggedKeys[t := s];
        StillValid(t);
        OneListChanged(t);
      }
    }

    method TagKey(k: Key, tags: seq<Tag>)
      requires Valid()
      modifies this`taggedKeys, Buffers()
      ensures Valid() && fresh(Buffers() - old(Buffers()))
      ensures Contents() == if k == "" then old(Contents()) else AddAll(old(Contents()), k, tags)
    {
      if k == "" || |tags| == 0 {
        return;
      }
      ghost var idx := Contents();
      for i := 0 to |tags|
        invariant Apart() && fresh(Buffers() - old(Buffers()))
        invariant Contents() == AddAll(idx, k, tags[..i])
      {
        TagOne(k, tags[i]);
        assert tags[..i + 1][..i] == tags[..i];
      }
      assert tags[..|tags|] == tags;
      TaggingKeepsForm(idx, k, tags);
      TaggingAdds(idx, k, tags);
    }

    /** One round of the loop in removeKeyFromTags. */
    method RemoveFrom(k: Key, t: Tag)
      requires Apart() && t in taggedKeys
      modifies this`taggedKeys, Buffers()
      ensures Apart() && Buffers() <= old(Buffers())
      ensures Contents() == Relist(old(Contents()), t, DropFirst(old(Contents())[t], k))
    {
      ghost var idx := Contents();
      ghost var list := DropFirst(idx[t], k);
      SpliceOut(k, t);
      assert list == Contents()[t] == taggedKeys[t].Items();
      if taggedKeys[t].len == 0 {
        DropTag(t);
        assert Contents() == idx - {t};
      } else {
        assert list != [];
      }
    }

    method SpliceOut(k: Key, t: Tag)
      requires Apart() && t in taggedKeys
      modifies this`taggedKeys, Buffers()
      ensures Apart() && Buffers() <= old(Buffers()) && t in taggedKeys
      ensures Contents() == old(Contents())[t := DropFirst(old(Contents())[t], k)]
    {
      var s := taggedKeys[t];
      ghost var items := s.Items();
      var at := IndexOf(s, k);
      if at.None? {
        NothingToSplice(items, k);
        return;
      }
      SpliceAt(items, k, at.value);
      s := Splice(s, at.value);
      taggedKeys := taggedKeys[t := s];
      StillValid(t);
      OneListChanged(t);
    }

    method DropTag(t: Tag)
      requires Apart()
      modifies this`taggedKeys
      ensures Apart() && Buffers() <= old(Buffers())
      ensures Contents() == old(Contents()) - {t}
    {
      taggedKeys := taggedKeys - {t};
    }

    method RemoveKeyFromTags(k: Key)
      requires Valid()
      modifies this`taggedKeys, Buffers()
      ensures Valid() && Buffers() <= old(Buffers())
      ensures Contents() == RemoveKey(old(Contents()), k)
    {
      ghost var idx := Contents();
      var todo := taggedKeys.Keys;
      VisitNoneOrAll(idx, k);
      while todo != {}
        invariant Apart() && Buffers() <= old(Buffers())
        invariant todo <= idx.Keys && Contents() == HalfRemoved(idx, k, todo)
        decreases todo
      {
        var t :| t in todo;
        VisitOneTag(idx, k, todo, t);
        assert t in Contents();
        RemoveFrom(k, t);
        todo := todo - {t};
      }
      RemovalRemoves(idx, k);
    }

    /** A copy, so that later splices leave it alone. */
    method GetTaggedKeys(t: Tag) returns (r: array?<Key>)
      requires Valid()
      ensures t !in taggedKeys ==> r == null
      ensures t in taggedKeys ==> r != null && fresh(r) && r !in Buffers() && r[..] == Contents()[t]
    {
      if t !in taggedKeys {
        return null;
      }
      var s := taggedKeys[t];
      var copied := new Key[s.len](_ => "");
      for i := 0 to s.len
        invariant copied[..i] == s.buf[..i]
      {
        copied[i] := s.buf[i];
      }
      return copied;
    }

    /** One round of the loop that collects the keys. */
    method SnapshotOne(snap: Slice, t: Tag) returns (r: Slice)
      requires Apart() && snap.Valid() && snap.buf !in Buffers()
      modifies snap.buf
      ensures Contents() == old(Contents())
      ensures r.Valid() && (r.buf == snap.buf || fresh(r.buf))
      ensures r.Items() == old(snap.Items()) + ListOf(Contents(), t)
    {
      if t !in taggedKeys {
        assert ListOf(Contents(), t) == [];
        return snap;
      }
      r := AppendAll(snap, taggedKeys[t]);
    }

    /** The keys under the given tags, copied together. */
    method Snapshot(tags: seq<Tag>) returns (snap: Slice)
      requires Apart()
      ensures snap.Valid() && fresh(snap.buf) && snap.Items() == KeysUnder(Contents(), tags)
    {
      ghost var idx := Contents();
      var empty := new Key[0];
      snap := Slice(empty, 0);
      for i := 0 to |tags|
        invariant snap.Valid() && fresh(snap.buf) && Contents() == idx
        invariant snap.Items() == KeysUnder(idx, tags[..i])
      {
        snap := SnapshotOne(snap, tags[i]);
        assert tags[..i + 1][..i] == tags[..i];
      }
      assert tags[..|tags|] == tags;
    }

    method Forget(tags: seq<Tag>)
      requires Apart()
      modifies this`taggedKeys
      ensures Apart() && Buffers() <= old(Buffers())
      ensures Contents() == DropTags(old(Contents()), tags)
    {
      for i := 0 to |tags|
        invariant taggedKeys == old(taggedKeys) - set t | t in tags[..i]
      {
        taggedKeys := taggedKeys - {tags[i]};
        assert tags[..i + 1] == tags[..i] + [tags[i]];
      }
      assert tags[..|tags|] == tags;
    }

    method InvalidateKey(k: Key, env: PairEnv) returns (r: Result<()>)
      requires Valid()
      modifies this`taggedKeys, Buffers(), manager.l1, manager.l2
      ensures Valid() && Buffers() <= old(Buffers())
      ensures r == if k == "" then Err(InvalidKey) else if Fails(env) then Err(Unavailable) else Ok(())
      ensures manager.l1.State() == L1.AfterDelete(old(manager.l1.State()), k, env.l1Io)
      ensures manager.l2.State() == L2.AfterDelete(old(manager.l2.State()), k, env.l2At, env.l2Io)
      ensures Contents() == if r.Ok? then RemoveKey(old(Contents()), k) else old(Contents())
    {
      r := manager.Delete(k, env);
      if r.Ok? {
        RemoveKeyFromTags(k);
      }
    }

    method InvalidatePattern(pattern: string, matches: Key -> bool, now: int, io: Io) returns (r: Result<()>)
      modifies manager.l2
      ensures pattern == "" ==> r == Err(BadArgument)
      ensures r.Ok? <==>
              && pattern != "" && !io.readFails
              && !(io.writeFails && L2.Matching(old(manager.l2.store), now, matches) != {})
      ensures r.Ok? ==> manager.l2.store == old(manager.l2.store) - L2.Matching(old(manager.l2.store), now, matches)
      ensures r.Err? ==> manager.l2.State() == old(manager.l2.State())
      ensures r.Ok? ==> forall k, later | matches(k) && k != "" && now <= later ::
                (Answer(manager.l1.cache, manager.l2.store, k, later).Ok? <==>
                 L1.ReadAnswer(Lookup(manager.l1.cache, k), later).Ok?)
    {
      if pattern == "" {
        return Err(BadArgument);
      }
      ghost var l1, l2 := manager.l1.cache, manager.l2.store;
      r := manager.l2.DeletePattern(matches, now, io);
      forall k, later | matches(k) && k != "" && now <= later
        ensures Answer(l1, l2 - L2.Matching(l2, now, matches), k, later).Ok? <==>
                L1.ReadAnswer(Lookup(l1, k), later).Ok?
      {
        PatternLeavesL1(l1, l2, matches, now, k, later);
      }
    }

    /** The keys in done have had their worker's turn since the state was d; f says which deletes fail. */
    ghost predicate After(d: Jobs.Data, done: set<Key>, f: Jobs.Faults)
      reads this`taggedKeys, Buffers(), manager.l1, manager.l2
    {
      && Valid()
      && Contents() == RemoveAll(d.index, done - (f.l1 + f.l2))
      && manager.l1.cache == d.l1 - (done - f.l1)
      && manager.l2.store == d.l2 - (done - f.l2)
    }

    /** One worker's turn. */
    method InvalidateOne(k: Key, env: PairEnv, ghost d: Jobs.Data, ghost done: set<Key>, ghost f: Jobs.Faults)
      requires After(d, done, f) && WellFormed(d.index) && k != "" && k !in done
      requires (k in f.l1 <==> env.l1Io.writeFails) && (k in f.l2 <==> env.l2Io.writeFails)
      modifies this`taggedKeys, Buffers(), manager.l1, manager.l2
      ensures After(d, done + {k}, f) && Buffers() <= old(Buffers())
    {
      RemoveOneMore(d.index, done - (f.l1 + f.l2), k);
      OneMoreKey(done, k, f.l1);
      OneMoreKey(done, k, f.l2);
      OneMoreKey(done, k, f.l1 + f.l2);
      var _ := InvalidateKey(k, env);
    }

    /** The workers of InvalidateByTags, here one after the other and in any order; module Workers
        covers every schedule. */
    method InvalidateEach(keys: set<Key>, env: Env)
      requires Valid() && "" !in keys
      modifies this`taggedKeys, Buffers(), manager.l1, manager.l2
      ensures After(old(Data()), keys, FaultsOf(keys, env)) && Buffers() <= old(Buffers())
    {
      ghost var d, f, done := Data(), FaultsOf(keys, env), {};
      NobodyYet(d, f);
      var todo := keys;
      while todo != {}
        invariant After(d, done, f) && Buffers() <= old(Buffers())
        invariant done !! todo && done + todo == keys
        decreases todo
      {
        var k :| k in todo;
        InvalidateOne(k, env.pairs(k), d, done, f);
        todo, done := todo - {k}, done + {k};
      }
      assert done == keys;
    }

    method InvalidateByTags(tags: seq<Tag>, env: Env) returns (r: Result<()>)
      requires Valid()
      modifies this`taggedKeys, Buffers(), manager.l1, manager.l2
      ensures Valid() && Buffers() <= old(Buffers())
      ensures r == if tags == [] then Err(BadArgument) else Ok(())
      ensures
        var f := FaultsOf(KeySet(old(Contents()), tags), env);
        Data() == Jobs.Execute(old(Data()), Jobs.ForTags(tags), f, env.now)
    {
      ghost var d := Data();
      NoKeysNoEffect(d, tags, env);
      if |tags| == 0 {
        return Err(BadArgument);
      }
      var keys := DistinctKeys(tags);
      if keys == {} {
        return Ok(());
      }
      EmptyKeyIsUnderNone(d.index, tags);
      InvalidateEach(keys, env);
      Forget(tags);
      InvalidationEffect(d.index, tags, FaultsOf(keys, env).l1 + FaultsOf(keys, env).l2);
      return Ok(());
    }

    /** The goroutine of a scheduled job. */
    method RunJob(id: Jobs.Id, job: Jobs.Job, env: Env)
      requires Valid()
      modifies this`taggedKeys, this`scheduledInvalidations, Buffers(), manager.l1, manager.l2
      ensures Valid() && Buffers() <= old(Buffers())
      ensures Data() == Jobs.Execute(old(Data()), job.target, JobFaults(old(Data()), job.target, env), env.now)
      ensures scheduledInvalidations == old(scheduledInvalidations) - {id}
    {
      Invalidate(job.target, env);
      FinishJob(id);
    }

    method Invalidate(target: Jobs.Target, env: Env)
      requires Valid()
      modifies this`taggedKeys, Buffers(), manager.l1, manager.l2
      ensures Valid() && Buffers() <= old(Buffers())
      ensures Data() == Jobs.Execute(old(Data()), target, JobFaults(old(Data()), target, env), env.now)
    {
      match target
      case ForKey(key) =>
        if key != "" {
          var _ := InvalidateKey(key, env.pairs(key));
        }
      case ForPattern(pattern, matches) =>
        if pattern != "" {
          ghost var store := manager.l2.store;
          var _ := InvalidatePattern(pattern, k => k in matches, env.now, env.io);
          PatternFaults(store, matches, env);
        }
      case ForTags(tags) =>
        var _ := InvalidateByTags(tags, env);
    }

    /** ScheduleInvalidation and its pattern and tag variants; id is the job id made from the clock. */
    method Schedule(id: Jobs.Id, target: Jobs.Target, delay: int, now: int) returns (r: Result<()>)
      modifies this`scheduledInvalidations
      ensures r == if target == Jobs.ForKey("") then Err(InvalidKey)
                   else if target.ForPattern? && target.pattern == "" then Err(BadArgument)
                   else if target == Jobs.ForTags([]) || delay < 0 then Err(BadArgument)
                   else Ok(())
      ensures scheduledInvalidations ==
              if r.Ok? then old(scheduledInvalidations)[id := Jobs.Job(target, now + delay, true)]
              else old(scheduledInvalidations)
    {
      match target {
        case ForKey(key) => if key == "" { return Err(InvalidKey); }
        case ForPattern(pattern, _) => if pattern == "" { return Err(BadArgument); }
        case ForTags(tags) => if |tags| == 0 { return Err(BadArgument); }
      }
      if delay < 0 {
        return Err(BadArgument);
      }
      var executeAt := now + delay;
      scheduledInvalidations := scheduledInvalidations[id := Jobs.Job(target, executeAt, true)];
      return Ok(());
    }

    /** The pick of one tick: the active jobs whose time is past. */
    method PickDue(now: int) returns (picked: map<Jobs.Id, Jobs.Job>)
      ensures picked == Jobs.Due(scheduledInvalidations, now)
    {
      picked := map[];
      var rest := scheduledInvalidations.Keys;
      while rest != {}
        invariant rest <= scheduledInvalidations.Keys
        invariant forall id | id in rest :: id !in picked
        invariant forall id | id !in rest ::
            (id in picked <==> id in Jobs.Due(scheduledInvalidations, now))
            && (id in picked ==> picked[id] == scheduledInvalidations[id])
        decreases rest
      {
        var id :| id in rest;
        rest := rest - {id};
        var job := scheduledInvalidations[id];
        if job.active && now > job.executeAt {
          picked := picked[id := job];
        }
      }
    }

    method FinishJob(id: Jobs.Id)
      modifies this`scheduledInvalidations
      ensures scheduledInvalidations == old(scheduledInvalidations) - {id}
    {
      scheduledInvalidations := scheduledInvalidations - {id};
    }

    method ClearScheduledInvalidations()
      modifies this`scheduledInvalidations
      ensures scheduledInvalidations == map[]
    {
      scheduledInvalidations := map[];
    }

    /** One later call on the invalidator. */
    method DoCall(c: Later)
      requires Valid()
      modifies this`taggedKeys, this`scheduledInvalidations, Buffers(), manager.l1, manager.l2
      ensures Valid() && fresh(Buffers() - old(Buffers()))
    {
      match c
      case Tag(k, tags) => TagKey(k, tags);
      case Invalidates(target, env) => Invalidate(target, env);
      case Runs(id, job, env) => RunJob(id, job, env);
      case Schedules(id, target, delay, now) => var _ := Schedule(id, target, delay, now);
      case ClearsJobs => ClearScheduledInvalidations();
    }

    /** A list returned by GetTaggedKeys stays as it was through any later calls: its array is no tag's, and
        the tags only ever get arrays that are new. */
    method CopyOutlivesCalls(t: Tag, calls: seq<Later>) returns (r: array?<Key>)
      requires Valid() && t in taggedKeys
      modifies this`taggedKeys, this`scheduledInvalidations, Buffers(), manager.l1, manager.l2
      ensures r != null && r[..] == old(Contents()[t])
      ensures Valid() && r !in Buffers()
    {
      r := GetTaggedKeys(t);
      for i := 0 to |calls|
        invariant Valid() && fresh(Buffers() - old(Buffers())) && r !in Buffers()
        invariant r[..] == old(Contents()[t])
      {
        DoCall(calls[i]);
      }
    }

    /** Snapshots and deduplicates the keys under the given tags. */
    method DistinctKeys(tags: seq<Tag>) returns (keys: set<Key>)
      requires Valid()
      ensures keys == KeySet(Contents(), tags)
    {
      ghost var idx := Contents();
      var snap := Snapshot(tags);
      assert Contents() == idx && snap.Items() == KeysUnder(idx, tags);
      var unique := Deduplicate(snap);
      UniqueElements(KeysUnder(idx, tags));
      assert unique == Unique(KeysUnder(idx, tags));
      keys := set k | k in unique;
      assert keys == KeySet(idx, tags);
      assert Contents() == idx;
    }
  }

  /** The calls that change the index, the caches or the job table. */
  datatype Later =
    | Tag(key: Key, tags: seq<Tag>)
    | Invalidates(target: Jobs.Target, env: Env)       // InvalidateKey, InvalidatePattern, InvalidateByTags
    | Runs(id: Jobs.Id, job: Jobs.Job, env: Env)
    | Schedules(id: Jobs.Id, target: Jobs.Target, delay: int, now: int)
    | ClearsJobs

  /** What deleting by pattern means for the manager's answers from then on, if nobody writes: a matching
      key is still answered exactly as long as L1 can read it, any other key as before. */
  lemma PatternLeavesL1(
    l1: map<Key, Entry>, l2: map<Key, L2.Stored>, matches: Key -> bool, now: int, k: Key, later: int)
    requires now <= later && k != ""
    ensures
      var after := l2 - L2.Matching(l2, now, matches);
      && (matches(k) ==> (Answer(l1, after, k, later).Ok? <==> L1.ReadAnswer(Lookup(l1, k), later).Ok?))
      && (!matches(k) ==> Answer(l1, after, k, later) == Answer(l1, l2, k, later))
  {
  }

  /** A matching key that both levels held is still answered, at every later instant. */
  lemma PatternKeyStillAnswered(k: Key, v: Value, now: int, later: int)
    requires k != "" && v != Nil && now <= later
    ensures
      var l1 := L1.AfterSet(L1.EMPTY, k, v, 0, now, HEALTHY).entries;
      var l2 := L2.AfterSet(L2.EMPTY, k, v, 0, now, HEALTHY).store;
      && L2.Matching(l2, now, _ => true) == {k}
      && Answer(l1, l2 - L2.Matching(l2, now, _ => true), k, later) == Ok(v)
  {
    var l1 := L1.AfterSet(L1.EMPTY, k, v, 0, now, HEALTHY).entries;
    assert k in l1 && L1.Readable(l1[k], later);
    assert k in L2.AfterSet(L2.EMPTY, k, v, 0, now, HEALTHY).store;
  }

  /** When an invalidation happens and how the backends behave: for each key's deletes, and for a scan. */
  datatype Env = Env(now: int, pairs: Key -> PairEnv, io: Io)

  predicate Fails(env: PairEnv) {
    env.l1Io.writeFails || env.l2Io.writeFails
  }

  function FaultsOf(keys: set<Key>, env: Env): Jobs.Faults {
    Jobs.Faults(set k | k in keys && env.pairs(k).l1Io.writeFails, set k | k in keys && env.pairs(k).l2Io.writeFails)
  }

  /** The faults an environment means for a job. */
  function JobFaults(d: Jobs.Data, target: Jobs.Target, env: Env): Jobs.Faults {
    match target
    case ForKey(k) => FaultsOf({k}, env)
    case ForPattern(_, matches) => Jobs.Faults({}, if env.io.readFails || env.io.writeFails then matches else {})
    case ForTags(tags) => FaultsOf(KeySet(d.index, tags), env)
  }

  lemma OneListDiffers(before: Index, after: Index, t: Tag)
    requires after.Keys == before.Keys + {t}
    requires forall u | u in before && u != t :: u in after && after[u] == before[u]
    ensures after == before[t := after[t]]
  {
  }

  lemma OneMoreKey(done: set<Key>, k: Key, failed: set<Key>)
    requires k !in done
    ensures (done + {k}) - failed == if k in failed then done - failed else (done - failed) + {k}
  {
  }

  lemma NobodyYet(d: Jobs.Data, f: Jobs.Faults)
    requires WellFormed(d.index)
    ensures RemoveAll(d.index, {} - (f.l1 + f.l2)) == d.index
    ensures d.l1 - ({} - f.l1) == d.l1 && d.l2 - ({} - f.l2) == d.l2
  {
    RemoveNone(d.index);
    assert {} - (f.l1 + f.l2) == {} && {} - f.l1 == {} && {} - f.l2 == {};
  }

  lemma NoKeys(s: seq<Key>, keys: set<Key>)
    requires forall k | k in s :: k in keys
    ensures keys == {} ==> s == []
  {
    if |s| > 0 {
      assert s[0] in keys;
    }
  }

  /** Invalidating tags nobody has leaves everything as it is. */
  lemma NoKeysNoEffect(d: Jobs.Data, tags: seq<Tag>, env: Env)
    requires WellFormed(d.index)
    ensures
      var keys := KeySet(d.index, tags);
      (tags == [] ==> keys == {}) &&
      (keys == {} ==> Jobs.Execute(d, Jobs.ForTags(tags), FaultsOf(keys, env), env.now) == d)
  {
    var keys := KeySet(d.index, tags);
    NoKeys(KeysUnder(d.index, tags), keys);
    if keys == {} {
      NothingTagged(d.index, tags, FaultsOf(keys, env).l1 + FaultsOf(keys, env).l2);
      assert d.l1 - {} == d.l1 && d.l2 - {} == d.l2;
    }
  }

  /** A failing pattern delete is one all of whose keys fail. */
  lemma PatternFaults(store: map<Key, L2.Stored>, matches: set<Key>, env: Env)
    ensures
      var found := L2.Matching(store, env.now, k => k in matches);
      && found == Jobs.Matched(store, matches, env.now)
      && store - (found - {}) == store - found
      && store - (found - matches) == store
      && (found == {} ==> store - found == store)
  {
    var found := L2.Matching(store, env.now, k => k in matches);
    assert found - {} == found && found - matches == {};
  }

  method IndexOf(s: Slice, k: Key) returns (at: Option<nat>)
    requires s.Valid()
    ensures at.None? ==> k !in s.Items()
    ensures at.Some? ==> at.value < s.len && s.Items()[at.value] == k && k !in s.Items()[..at.value]
  {
    for i := 0 to s.len
      invariant k !in s.buf[..i]
    {
      if s.buf[i] == k {
        assert s.Items()[..i] == s.buf[..i];
        return Some(i);
      }
    }
    return None;
  }

  method AppendAll(s: Slice, more: Slice) returns (r: Slice)
    requires s.Valid() && more.Valid() && s.buf != more.buf
    modifies s.buf
    ensures r.Valid() && (r.buf == s.buf || fresh(r.buf))
    ensures r.Items() == old(s.Items()) + more.Items()
  {
    r := s;
    ghost var items := more.Items();
    for i := 0 to more.len
      invariant r.Valid() && (r.buf == s.buf || fresh(r.buf))
      invariant more.Items() == items
      invariant r.Items() == old(s.Items()) + items[..i]
    {
      r := Append(r, more.buf[i]);
      assert items[..i + 1] == items[..i] + [more.buf[i]];
    }
  }

  method Deduplicate(s: Slice) returns (unique: seq<Key>)
    requires s.Valid()
    ensures unique == Unique(s.Items())
  {
    unique := [];
    var seen: set<Key> := {};
    ghost var items := s.Items();
    for i := 0 to s.len
      invariant unique == Unique(items[..i])
      invariant forall k :: k in seen <==> k in items[..i]
    {
      var k := s.buf[i];
      assert k == items[i] && items[..i + 1] == items[..i] + [k];
      UniqueMore(items[..i], k);
      if k !in seen {
        seen := seen + {k};
        unique := unique + [k];
      }
    }
    assert items[..s.len] == items;
  }

  method Contains(s: Slice, k: Key) returns (found: bool)
    requires s.Valid()
    ensures found <==> k in s.Items()
  {
    for i := 0 to s.len
      invariant k !in s.buf[..i]
    {
      if s.buf[i] == k {
        assert s.Items()[i] == k;
        return true;
      }
    }
    return false;
  }
}
