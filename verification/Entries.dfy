/** The values that travel through the cache (internal/cache/types.go). */
module Entries {

  type Key = string
  type Tag = string

  datatype Option<+T> = None | Some(value: T)

  /** A Go byte slice: nil and the empty slice are different values. */
  datatype Value = Nil | Bytes(data: seq<bv8>)

  datatype Error = CacheNotFound | CacheExpired | InvalidKey | InvalidValue | Unavailable | BadArgument

  datatype Result<+T> = Ok(value: T) | Err(error: Error)

  /** Instants and durations are integers in nanoseconds. */
  datatype Entry = Entry(
    key: Key, value: Value, ttl: int, createdAt: int, accessedAt: int, hitCount: nat, version: int)

  datatype Counters = Counters(hits: nat, misses: nat, sets: nat, deletes: nat)

  /** What the backend did during one call: whether reading failed, and whether writing failed. */
  datatype Io = Io(readFails: bool, writeFails: bool)

  function LookupCount(c: Counters): nat { c.hits + c.misses }

  const NO_COUNTS := Counters(0, 0, 0, 0)
  const HEALTHY := Io(false, false)

  /** The entry a level builds in Set. */
  function NewEntry(key: Key, value: Value, ttl: int, version: int, now: int): Entry {
    Entry(key, value, ttl, now, now, 0, version)
  }

  /** The entry a level writes back after a hit. */
  function Touched(e: Entry, now: int): Entry {
    e.(accessedAt := now, hitCount := e.hitCount + 1)
  }

  /** Everything about an entry except the access metadata. */
  predicate SamePayload(e: Entry, f: Entry) {
    e.key == f.key && e.value == f.value && e.ttl == f.ttl && e.createdAt == f.createdAt && e.version == f.version
  }

  function Lookup<T>(m: map<Key, T>, k: Key): Option<T> {
    if k in m then Some(m[k]) else None
  }

  /** The map with slot k replaced. */
  function Put<T>(m: map<Key, T>, k: Key, slot: Option<T>): (r: map<Key, T>)
    ensures Lookup(r, k) == slot
    ensures forall j | j != k :: Lookup(r, j) == Lookup(m, j)
  {
    match slot
    case Some(v) => m[k := v]
    case None => m - {k}
  }
}
