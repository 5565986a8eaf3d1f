/** Cache warming (internal/cache/warmer.go). */
module Warmer {
  import opened Entries
  import opened Manager
  import L1 = BigCache
  import L2 = RedisCache

  // ----- The batching loop -----

  const DEFAULT_BATCH_SIZE := 100

  function Flatten(batches: seq<seq<Key>>): seq<Key> {
    if batches == [] then [] else Flatten(batches[..|batches| - 1]) + batches[|batches| - 1]
  }

  lemma FlattenMore(batches: seq<seq<Key>>, batch: seq<Key>)
    ensures Flatten(batches + [batch]) == Flatten(batches) + batch
  {
    assert (batches + [batch])[..|batches|] == batches;
  }

  /** The batches are non-empty, at most batch-size long, as few as possible, and in order they are
      the list. */
  method Batches(keys: seq<Key>, configured: int) returns (batches: seq<seq<Key>>)
    ensures Flatten(batches) == keys
    ensures
      var size := if configured <= 0 then 100 else configured;
      && (forall i | 0 <= i < |batches| :: 0 < |batches[i]| <= size)
      && |batches| == (|keys| + size - 1) / size
  {
    var batchSize: int := configured;
    if batchSize <= 0 {
      batchSize := DEFAULT_BATCH_SIZE;
    }
    batches := [];
    ghost var taken: nat := 0;
    var i := 0;
    while i < |keys|
      invariant 0 <= i < |keys| + batchSize
      invariant taken == if i < |keys| then i else |keys|
      invariant Flatten(batches) == keys[..taken]
      invariant i == |batches| * batchSize
      invariant forall j | 0 <= j < |batches| :: 0 < |batches[j]| <= batchSize
      decreases |keys| - i
    {
      var end := i + batchSize;
      if end > |keys| {
        end := |keys|;
      }
      var batch := keys[i..end];
      FlattenMore(batches, batch);
      assert keys[..i] + batch == keys[..end];
      assert (|batches| + 1) * batchSize == |batches| * batchSize + batchSize;
      batches := batches + [batch];
      i := i + batchSize;
      taken := end;
    }
    assert keys[..|keys|] == keys;
    Ceiling(|keys|, batchSize, |batches|);
  }

  lemma Ceiling(n: nat, size: nat, q: nat)
    requires size > 0 && n <= q * size < n + size
    ensures q == (n + size - 1) / size
  {
    var a := n + size - 1;
    var q' := a / size;
    Floor(a, size);
    assert q * size <= a < q * size + size;
    if q + 1 <= q' {
      Scale(q + 1, q', size);
    } else if q' + 1 <= q {
      Scale(q' + 1, q, size);
    }
  }

  lemma Floor(a: nat, d: nat)
    requires d > 0
    ensures (a / d) * d <= a < (a / d) * d + d
  {
    assert a == d * (a / d) + a % d;
  }

  lemma Scale(x: nat, y: nat, d: nat)
    requires x <= y
    ensures x * d <= y * d
  {
  }

  // ----- Warming one key, and a list of keys one after the other -----

  datatype WarmEnv = WarmEnv(existsFails: bool, l2: L2.Access, l2Io: Io, l1At: int, l1Io: Io)

  datatype Levels = Levels(l1: L1.Level, l2: L2.Level)

  function WarmOne(s: Levels, key: Key, env: WarmEnv, defaultTTL: int): Levels {
    if key == "" || env.existsFails || key in s.l1.entries then s
    else
      var l2 := L2.AfterGet(s.l2, key, env.l2, env.l2Io);
      match L2.GetAnswer(s.l2, key, env.l2.readAt, env.l2Io)
      case Ok(value) => Levels(L1.AfterSet(s.l1, key, value, defaultTTL, env.l1At, env.l1Io), l2)
      case Err(_) => Levels(s.l1, l2)
  }

  function WarmAll(s: Levels, keys: seq<Key>, envs: nat -> WarmEnv, defaultTTL: int): Levels {
    if keys == [] then s
    else
      var n := |keys| - 1;
      WarmOne(WarmAll(s, keys[..n], envs, defaultTTL), keys[n], envs(n), defaultTTL)
  }

  class CacheWarmerImpl {
    const manager: CacheManagerImpl
    const batchSize: int

    constructor (manager: CacheManagerImpl, batchSize: int)
      ensures this.manager == manager && this.batchSize == batchSize
    {
      this.manager, this.batchSize := manager, batchSize;
    }

    function State(): Levels
      reads manager.l1, manager.l2
    {
      Levels(manager.l1.State(), manager.l2.State())
    }

    method WarmSingleKey(key: Key, env: WarmEnv)
      modifies manager.l1, manager.l2
      ensures State() == WarmOne(old(State()), key, env, manager.defaultTTL)
      ensures OthersAlone(key, old(manager.l1.cache), old(manager.l2.store), manager.l1.cache, manager.l2.store)
      ensures key == "" || env.existsFails || key in old(manager.l1.cache) ==> State() == old(State())
      ensures key != "" && !env.existsFails && key !in old(manager.l1.cache) ==>
                var answer := L2.GetAnswer(old(manager.l2.State()), key, env.l2.readAt, env.l2Io);
                && manager.l2.State() == L2.AfterGet(old(manager.l2.State()), key, env.l2, env.l2Io)
                && Lookup(manager.l1.cache, key) ==
                   if answer.Ok? && answer.value != Nil && !env.l1Io.writeFails then
                     Some(Entry(key, answer.value, manager.defaultTTL, env.l1At, env.l1At, 0, 1))
                   else None
    {
      var there := manager.l1.Exists(key, Io(env.existsFails, false));
      if there.Err? || there.value {
        return;
      }
      var value := manager.l2.Get(key, env.l2, env.l2Io);
      if value.Err? {
        return;
      }
      var _ := manager.l1.Set(key, value.value, manager.defaultTTL, env.l1At, env.l1Io);
    }

    /** Warms one batch, whose first position in the list is from. */
    method WarmBatch(batch: seq<Key>, from: nat, envs: nat -> WarmEnv, ghost start: Levels, ghost before: seq<Key>)
      requires |before| == from && State() == WarmAll(start, before, envs, manager.defaultTTL)
      modifies manager.l1, manager.l2
      ensures State() == WarmAll(start, before + batch, envs, manager.defaultTTL)
    {
      assert before + batch[..0] == before;
      for j := 0 to |batch|
        invariant State() == WarmAll(start, before + batch[..j], envs, manager.defaultTTL)
      {
        assert (before + batch[..j + 1])[..from + j] == before + batch[..j];
        WarmSingleKey(batch[j], envs(from + j));
      }
      assert batch[..|batch|] == batch;
    }

    /** Without cancellation every position is warmed once; here the batches run one after the other,
        below they run in any interleaving. */
    method WarmKeys(keys: seq<Key>, envs: nat -> WarmEnv)
      modifies manager.l1, manager.l2
      ensures State() == WarmAll(old(State()), keys, envs, manager.defaultTTL)
    {
      var batches := Batches(keys, batchSize);
      ghost var start := State();
      var warmed: nat := 0;
      for i := 0 to |batches|
        invariant warmed == |Flatten(batches[..i])|
        invariant State() == WarmAll(start, Flatten(batches[..i]), envs, manager.defaultTTL)
      {
        WarmBatch(batches[i], warmed, envs, start, Flatten(batches[..i]));
        FlattenMore(batches[..i], batches[i]);
        assert batches[..i + 1] == batches[..i] + [batches[i]];
        warmed := warmed + |batches[i]|;
      }
      assert batches[..|batches|] == batches;
    }
  }

  // ----- Warming keeps every answer -----

  /** An L2 record after reads at now: the same payload, and the deadline it had or, if it could be seen,
      the one a read gives it. */
  predicate RecordKept(before: L2.Stored, after: L2.Stored, now: int) {
    && SamePayload(after.entry, before.entry)
    && (after.deadline == before.deadline
        || (L2.Visible(before, now) && after.deadline == L2.Armed(L2.Expiry(before.entry) - now, now)))
  }

  lemma RecordKeptMeans(before: L2.Stored, after: L2.Stored, now: int)
    requires RecordKept(before, after, now)
    ensures L2.Visible(after, now) <==> L2.Visible(before, now)
    ensures L2.WellArmed(before, now) ==> after.deadline == before.deadline
  {
  }

  /** Both levels compared with where warming started, at one instant. */
  predicate Preserved(
    from1: map<Key, Entry>, from2: map<Key, L2.Stored>, requested: seq<Key>, now: int, defaultTTL: int,
    l1: map<Key, Entry>, l2: map<Key, L2.Stored>)
  {
    && l2.Keys == from2.Keys
    && (forall k | k in l2 :: RecordKept(from2[k], l2[k], now))
    && (forall k | k in from1 :: k in l1 && l1[k] == from1[k])
    && (forall k | k in l1 && k !in from1 ::
          && k in requested && k != ""
          && Held(from2, k, now) == Some(l1[k].value)
          && l1[k].value != Nil && l1[k] == Entry(k, l1[k].value, defaultTTL, now, now, 0, 1))
  }

  /** The value L2 can answer with for k. */
  function Held(l2: map<Key, L2.Stored>, k: Key, now: int): Option<Value> {
    if k in l2 && L2.Visible(l2[k], now) then Some(l2[k].entry.value) else None
  }

  lemma FetchKeeps(
    from1: map<Key, Entry>, from2: map<Key, L2.Stored>, requested: seq<Key>, now: int, defaultTTL: int,
    l1: map<Key, Entry>, l2: map<Key, L2.Stored>, k: Key)
    requires Preserved(from1, from2, requested, now, defaultTTL, l1, l2)
    ensures Preserved(from1, from2, requested, now, defaultTTL, l1, Put(l2, k, L2.ReadSlot(Lookup(l2, k), L2.At(now))))
    ensures Held(l2, k, now) == Held(from2, k, now)
  {
    if k in l2 {
      RecordKeptMeans(from2[k], l2[k], now);
    } else {
      assert l2 - {k} == l2;
    }
  }

  lemma FillKeeps(
    from1: map<Key, Entry>, from2: map<Key, L2.Stored>, requested: seq<Key>, now: int, defaultTTL: int,
    l1: map<Key, Entry>, l2: map<Key, L2.Stored>, k: Key, value: Value)
    requires Preserved(from1, from2, requested, now, defaultTTL, l1, l2)
    requires k in requested && k != "" && k !in from1 && Held(from2, k, now) == Some(value) && value != Nil
    ensures Preserved(from1, from2, requested, now, defaultTTL, l1[k := NewEntry(k, value, defaultTTL, 1, now)], l2)
  {
  }

  lemma PreservedAnswers(
    from1: map<Key, Entry>, from2: map<Key, L2.Stored>, requested: seq<Key>, now: int, defaultTTL: int,
    l1: map<Key, Entry>, l2: map<Key, L2.Stored>, key: Key)
    requires Preserved(from1, from2, requested, now, defaultTTL, l1, l2)
    ensures Answer(l1, l2, key, now) == Answer(from1, from2, key, now)
  {
    if key in l2 {
      RecordKeptMeans(from2[key], l2[key], now);
    }
    assert Held(l2, key, now) == Held(from2, key, now);
    assert key in l1 && key !in from1 ==> Held(from2, key, now) == Some(l1[key].value);
  }

  // ----- Every interleaving of the warming goroutines -----

  /** Where the warming of one list position stands. */
  datatype Pc = Start | Missing | Fetched(value: Value) | Done

  datatype State = State(l1: map<Key, Entry>, l2: map<Key, L2.Stored>, pcs: seq<Pc>)

  function Init(keys: seq<Key>, l1: map<Key, Entry>, l2: map<Key, L2.Stored>): State {
    State(l1, l2, seq(|keys|, _ => Start))
  }

  predicate Enabled(s: State, i: nat) {
    i < |s.pcs| && !s.pcs[i].Done?
  }

  /** Position i makes its next access: Exists on L1, Get on L2, Set on L1. */
  function Next(s: State, keys: seq<Key>, i: nat, defaultTTL: int, now: int): State
    requires |s.pcs| == |keys| && Enabled(s, i)
  {
    var k := keys[i];
    match s.pcs[i]
    case Start => s.(pcs := s.pcs[i := if k == "" || k in s.l1 then Done else Missing])
    case Missing =>
      (match L2.ReadAnswer(Lookup(s.l2, k), now)
       case Ok(value) =>
         s.(l2 := Put(s.l2, k, L2.ReadSlot(Lookup(s.l2, k), L2.At(now))), pcs := s.pcs[i := Fetched(value)])
       case Err(_) => s.(pcs := s.pcs[i := Done]))
    case Fetched(value) =>
      s.(l1 := if value == Nil then s.l1 else s.l1[k := NewEntry(k, value, defaultTTL, 1, now)],
         pcs := s.pcs[i := Done])
    case Done => s
  }

  function Run(
    keys: seq<Key>, l1: map<Key, Entry>, l2: map<Key, L2.Stored>, schedule: seq<nat>, defaultTTL: int,
    now: int): (r: Option<State>)
    ensures r.Some? ==> |r.value.pcs| == |keys|
  {
    if schedule == [] then Some(Init(keys, l1, l2))
    else
      match Run(keys, l1, l2, schedule[..|schedule| - 1], defaultTTL, now)
      case None => None
      case Some(s) =>
        var i := schedule[|schedule| - 1];
        if Enabled(s, i) then Some(Next(s, keys, i, defaultTTL, now)) else None
  }

  predicate PositionOk(
    from1: map<Key, Entry>, from2: map<Key, L2.Stored>, now: int, l1: map<Key, Entry>, k: Key, pc: Pc) {
    match pc
    case Start => true
    case Missing => k != "" && k !in from1
    case Fetched(value) => k != "" && k !in from1 && Held(from2, k, now) == Some(value)
    case Done => k == "" || k in l1 || Held(from2, k, now) in {None, Some(Nil)}
  }

  predicate Inv(
    keys: seq<Key>, from1: map<Key, Entry>, from2: map<Key, L2.Stored>, now: int, defaultTTL: int, s: State)
  {
    && Preserved(from1, from2, keys, now, defaultTTL, s.l1, s.l2)
    && |s.pcs| == |keys|
    && forall i | 0 <= i < |keys| :: PositionOk(from1, from2, now, s.l1, keys[i], s.pcs[i])
  }

  /** Positions other than the one that moved: L1 only grows. */
  lemma OthersOk(
    from1: map<Key, Entry>, from2: map<Key, L2.Stored>, now: int, l1: map<Key, Entry>, l1': map<Key, Entry>, k: Key,
    pc: Pc)
    requires PositionOk(from1, from2, now, l1, k, pc) && l1.Keys <= l1'.Keys
    ensures PositionOk(from1, from2, now, l1', k, pc)
  {
  }

  lemma MoverOk(
    keys: seq<Key>, from1: map<Key, Entry>, from2: map<Key, L2.Stored>, now: int, s: State, i: nat, defaultTTL: int)
    requires Preserved(from1, from2, keys, now, defaultTTL, s.l1, s.l2) && |s.pcs| == |keys| && Enabled(s, i)
    requires PositionOk(from1, from2, now, s.l1, keys[i], s.pcs[i])
    ensures
      var t := Next(s, keys, i, defaultTTL, now);
      && Preserved(from1, from2, keys, now, defaultTTL, t.l1, t.l2)
      && s.l1.Keys <= t.l1.Keys
      && t.pcs == s.pcs[i := t.pcs[i]]
      && PositionOk(from1, from2, now, t.l1, keys[i], t.pcs[i])
  {
    var k := keys[i];
    match s.pcs[i]
    case Start =>
    case Missing => FetchKeeps(from1, from2, keys, now, defaultTTL, s.l1, s.l2, k);
    case Fetched(value) =>
      if value != Nil {
        FillKeeps(from1, from2, keys, now, defaultTTL, s.l1, s.l2, k, value);
      }
    case Done =>
  }

  lemma InvKept(
    keys: seq<Key>, from1: map<Key, Entry>, from2: map<Key, L2.Stored>, now: int, s: State, i: nat, defaultTTL: int)
    requires Inv(keys, from1, from2, now, defaultTTL, s) && Enabled(s, i)
    ensures Inv(keys, from1, from2, now, defaultTTL, Next(s, keys, i, defaultTTL, now))
  {
    MoverOk(keys, from1, from2, now, s, i, defaultTTL);
    var t := Next(s, keys, i, defaultTTL, now);
    forall j | 0 <= j < |keys|
      ensures PositionOk(from1, from2, now, t.l1, keys[j], t.pcs[j])
    {
      if j != i {
        OthersOk(from1, from2, now, s.l1, t.l1, keys[j], s.pcs[j]);
      }
    }
  }

  lemma {:induction false} InvHolds(
    keys: seq<Key>, from1: map<Key, Entry>, from2: map<Key, L2.Stored>, schedule: seq<nat>, defaultTTL: int, now: int)
    requires Run(keys, from1, from2, schedule, defaultTTL, now).Some?
    ensures Inv(keys, from1, from2, now, defaultTTL, Run(keys, from1, from2, schedule, defaultTTL, now).value)
  {
    if schedule != [] {
      var before := schedule[..|schedule| - 1];
      InvHolds(keys, from1, from2, before, defaultTTL, now);
      InvKept(keys, from1, from2, now, Run(keys, from1, from2, before, defaultTTL, now).value,
              schedule[|schedule| - 1], defaultTTL);
    }
  }

  /** From any state of the levels, at every point of every schedule: the manager's answer for every key
      is what it was; no L2 payload has changed, nor the deadline of any record that has the one a
      re-arming gives; L1 has changed only at requested keys it lacked and L2 held. When all positions are
      done, every requested key L2 held with a value has an L1 entry. */
  lemma WarmingPreservesMeaning(
    keys: seq<Key>, l1: map<Key, Entry>, l2: map<Key, L2.Stored>, schedule: seq<nat>, defaultTTL: int, now: int)
    requires Run(keys, l1, l2, schedule, defaultTTL, now).Some?
    ensures
      var s := Run(keys, l1, l2, schedule, defaultTTL, now).value;
      && (forall k :: Answer(s.l1, s.l2, k, now) == Answer(l1, l2, k, now))
      && s.l2.Keys == l2.Keys
      && (forall k | k in l2 :: SamePayload(s.l2[k].entry, l2[k].entry))
      && (forall k | k in l2 && L2.WellArmed(l2[k], now) :: s.l2[k].deadline == l2[k].deadline)
      && (forall k | k in l1 :: k in s.l1 && s.l1[k] == l1[k])
      && (forall k | k in s.l1 && k !in l1 ::
            && k in keys && Held(l2, k, now) == Some(s.l1[k].value)
            && s.l1[k] == Entry(k, s.l1[k].value, defaultTTL, now, now, 0, 1))
      && ((forall i | 0 <= i < |keys| :: s.pcs[i].Done?) ==>
            forall k | k in keys && k != "" && Held(l2, k, now) !in {None, Some(Nil)} :: k in s.l1)
  {
    InvHolds(keys, l1, l2, schedule, defaultTTL, now);
    var s := Run(keys, l1, l2, schedule, defaultTTL, now).value;
    forall k
      ensures Answer(s.l1, s.l2, k, now) == Answer(l1, l2, k, now)
    {
      PreservedAnswers(l1, l2, keys, now, defaultTTL, s.l1, s.l2, k);
    }
    forall k | k in l2 && L2.WellArmed(l2[k], now)
      ensures s.l2[k].deadline == l2[k].deadline
    {
      RecordKeptMeans(l2[k], s.l2[k], now);
    }
    forall k |
      && k in keys && k != "" && Held(l2, k, now) !in {None, Some(Nil)}
      && forall i | 0 <= i < |keys| :: s.pcs[i].Done?
      ensures k in s.l1
    {
      var i :| 0 <= i < |keys| && keys[i] == k;
      assert PositionOk(l1, l2, now, s.l1, keys[i], s.pcs[i]);
    }
  }

  /** When L2 has got where it is by its own operations, each executed at the instant it was made for,
      warming moves no deadline at all. */
  lemma WarmingMovesNoDeadline(
    keys: seq<Key>, l1: map<Key, Entry>, ops: seq<L2.Op>, schedule: seq<nat>, defaultTTL: int, now: int)
    requires L2.Prompt(ops, now)
    requires Run(keys, l1, L2.Run(ops).store, schedule, defaultTTL, now).Some?
    ensures
      var l2 := L2.Run(ops).store;
      var after := Run(keys, l1, l2, schedule, defaultTTL, now).value.l2;
      after.Keys == l2.Keys && forall k | k in l2 :: after[k].deadline == l2[k].deadline
  {
    L2.EveryRecordIsWellArmed(ops, now);
    WarmingPreservesMeaning(keys, l1, L2.Run(ops).store, schedule, defaultTTL, now);
  }

  /** Healthy backends, everything at one instant. */
  function AtOnce(now: int): nat -> WarmEnv {
    _ => WarmEnv(false, L2.At(now), HEALTHY, now, HEALTHY)
  }

  lemma WarmOneKeeps(
    from1: map<Key, Entry>, from2: map<Key, L2.Stored>, requested: seq<Key>, now: int, s: Levels, k: Key,
    defaultTTL: int)
    requires Preserved(from1, from2, requested, now, defaultTTL, s.l1.entries, s.l2.store) && k in requested
    ensures
      var t := WarmOne(s, k, AtOnce(now)(0), defaultTTL);
      && Preserved(from1, from2, requested, now, defaultTTL, t.l1.entries, t.l2.store)
      && (forall j | j in s.l1.entries :: j in t.l1.entries)
      && (k != "" && Held(from2, k, now) !in {None, Some(Nil)} ==> k in t.l1.entries)
  {
    if k != "" && k !in s.l1.entries {
      FetchKeeps(from1, from2, requested, now, defaultTTL, s.l1.entries, s.l2.store, k);
      var l2 := L2.AfterGet(s.l2, k, L2.At(now), HEALTHY);
      assert Preserved(from1, from2, requested, now, defaultTTL, s.l1.entries, l2.store);
      var held := Held(from2, k, now);
      if held.Some? && held.value != Nil {
        FillKeeps(from1, from2, requested, now, defaultTTL, s.l1.entries, l2.store, k, held.value);
      }
    }
  }

  /** The same for warming the list position by position, as WarmKeys above does. */
  lemma {:induction false} WarmAllKeeps(s: Levels, keys: seq<Key>, requested: seq<Key>, defaultTTL: int, now: int)
    requires forall k | k in keys :: k in requested
    ensures
      var t := WarmAll(s, keys, AtOnce(now), defaultTTL);
      && Preserved(s.l1.entries, s.l2.store, requested, now, defaultTTL, t.l1.entries, t.l2.store)
      && (forall k | k in keys && k != "" && Held(s.l2.store, k, now) !in {None, Some(Nil)} :: k in t.l1.entries)
  {
    if keys != [] {
      var n := |keys| - 1;
      var init, k := keys[..n], keys[n];
      assert keys == init + [k];
      WarmAllKeeps(s, init, requested, defaultTTL, now);
      WarmOneKeeps(s.l1.entries, s.l2.store, requested, now, WarmAll(s, init, AtOnce(now), defaultTTL), k, defaultTTL);
    }
  }

  lemma WarmKeysPreservesMeaning(s: Levels, keys: seq<Key>, defaultTTL: int, now: int, key: Key)
    ensures
      var t := WarmAll(s, keys, AtOnce(now), defaultTTL);
      Answer(t.l1.entries, t.l2.store, key, now) == Answer(s.l1.entries, s.l2.store, key, now)
  {
    WarmAllKeeps(s, keys, keys, defaultTTL, now);
    var t := WarmAll(s, keys, AtOnce(now), defaultTTL);
    PreservedAnswers(s.l1.entries, s.l2.store, keys, now, defaultTTL, t.l1.entries, t.l2.store, key);
  }
}
