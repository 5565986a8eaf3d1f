/** The goroutines of one InvalidateByTags (internal/cache/invalidator.go): a starting loop, one worker
    a key behind a semaphore, two deleters a worker, the index lock, the wait group and the clean-up.
    Events are the steps of any of them, in any order the primitives allow. */
module Workers {
  import opened Entries
  import opened Sequences
  import opened Tags
  import L2 = RedisCache
  import Jobs

  const LIMIT := 10

  /** What the call was made on; the keys are what it snapshots and deduplicates. The empty key, which
      InvalidateKey refuses, is never among them (Tags.IndexIsTheRelation). */
  datatype Call = Call(index: Index, tags: seq<Tag>, l1: map<Key, Entry>, l2: map<Key, L2.Stored>)

  function Keys(c: Call): seq<Key> {
    Unique(KeysUnder(c.index, c.tags))
  }

  /** A deleting goroutine: still running, its reply queued in errChan, its reply taken from there.
      A missing key is no error. */
  datatype Half = Running | Queued(ok: bool) | Taken(ok: bool)

  datatype Pc =
    | Unborn                       // the loop has not come to this key
    | AtSemaphore                  // semaphore <- struct{}{}
    | Deleting                     // InvalidateKey: two deletes, two receives
    | AtLock                       // removeKeyFromTags: ci.mu.Lock()
    | Splicing(todo: set<Tag>)     // holds ci.mu, has these tags left to visit
    | AtExit                       // InvalidateKey has returned
    | Leaving                      // the semaphore slot is free again
    | Done                         // wg.Done()

  datatype Worker = Worker(key: Key, pc: Pc, h1: Half, h2: Half)

  datatype Main = Starting(next: nat) | Forgetting | Finished

  datatype Lock = Free | HeldBy(i: nat) | HeldByMain

  datatype State = State(
    workers: seq<Worker>, main: Main, slots: nat, wg: nat, mu: Lock,
    index: Index, l1: map<Key, Entry>, l2: map<Key, L2.Stored>,
    calls: seq<Key>)               // the InvalidateKey calls made so far

  function Init(c: Call): State {
    var keys := Keys(c);
    State(seq(|keys|, i requires 0 <= i < |keys| => Worker(keys[i], Unborn, Running, Running)),
          Starting(0), 0, 0, Free, c.index, c.l1, c.l2, [])
  }

  datatype Event =
    | Spawn                        // wg.Add(1); go ...
    | Acquire(i: nat)
    | DeleteL1(i: nat, fails: bool)
    | DeleteL2(i: nat, fails: bool)
    | Receive1(i: nat)
    | Receive2(i: nat)
    | Judge(i: nat)                // both replies are in
    | TakeLock(i: nat)
    | Splice(i: nat, t: Tag)
    | Unlock(i: nat)
    | Release(i: nat)
    | WgDone(i: nat)
    | MainLock                     // wg.Wait() returns, ci.mu.Lock()
    | Forget                       // delete the tags, unlock

  predicate Succeeded(w: Worker) {
    w.h1 == Taken(true) && w.h2 == Taken(true)
  }

  predicate Enabled(s: State, e: Event) {
    match e
    case Spawn => s.main.Starting? && s.main.next < |s.workers|
    case MainLock => s.main == Starting(|s.workers|) && s.wg == 0 && s.mu == Free
    case Forget => s.main.Forgetting?
    case _ =>
      && e.i < |s.workers|
      && var w := s.workers[e.i];
         match e
         case Acquire(_) => w.pc.AtSemaphore? && s.slots < LIMIT
         case DeleteL1(_, _) => w.pc.Deleting? && w.h1.Running?
         case DeleteL2(_, _) => w.pc.Deleting? && w.h2.Running?
         case Receive1(_) => w.pc.Deleting? && w.h1.Queued?
         case Receive2(_) => w.pc.Deleting? && w.h2.Queued?
         case Judge(_) => w.pc.Deleting? && w.h1.Taken? && w.h2.Taken?
         case TakeLock(_) => w.pc.AtLock? && s.mu == Free
         case Splice(_, t) => w.pc.Splicing? && t in w.pc.todo
         case Unlock(_) => w.pc.Splicing? && w.pc.todo == {}
         case Release(_) => w.pc.AtExit? && s.slots > 0
         case WgDone(_) => w.pc.Leaving? && s.wg > 0
         case _ => false
  }

  /** The worker an event moves, if it moves one. */
  function Mover(s: State, e: Event): Option<nat>
    requires Enabled(s, e)
  {
    match e
    case Spawn => Some(s.main.next)
    case MainLock => None
    case Forget => None
    case _ => Some(e.i)
  }

  /** The worker after its own step; tags are those in the index. */
  function After(w: Worker, e: Event, tags: set<Tag>): Worker {
    match e
    case Spawn => w.(pc := AtSemaphore)
    case Acquire(_) => w.(pc := Deleting)
    case DeleteL1(_, fails) => w.(h1 := Queued(!fails))
    case DeleteL2(_, fails) => w.(h2 := Queued(!fails))
    case Receive1(_) => if w.h1.Queued? then w.(h1 := Taken(w.h1.ok)) else w
    case Receive2(_) => if w.h2.Queued? then w.(h2 := Taken(w.h2.ok)) else w
    case Judge(_) => w.(pc := if Succeeded(w) then AtLock else AtExit)
    case TakeLock(_) => w.(pc := Splicing(tags))
    case Splice(_, t) => if w.pc.Splicing? then w.(pc := Splicing(w.pc.todo - {t})) else w
    case Unlock(_) => w.(pc := AtExit)
    case Release(_) => w.(pc := Leaving)
    case WgDone(_) => w.(pc := Done)
    case _ => w
  }

  function Next(c: Call, s: State, e: Event): State
    requires Enabled(s, e)
  {
    State(
      match Mover(s, e)
        case Some(i) => s.workers[i := After(s.workers[i], e, s.index.Keys)]
        case None => s.workers,
      match e
        case Spawn => Starting(s.main.next + 1)
        case MainLock => Forgetting
        case Forget => Finished
        case _ => s.main,
      if e.Acquire? then s.slots + 1 else if e.Release? then s.slots - 1 else s.slots,
      if e.Spawn? then s.wg + 1 else if e.WgDone? then s.wg - 1 else s.wg,
      match e
        case TakeLock(i) => HeldBy(i)
        case MainLock => HeldByMain
        case Unlock(_) => Free
        case Forget => Free
        case _ => s.mu,
      match e
        case Splice(i, t) => Relist(s.index, t, DropFirst(ListOf(s.index, t), s.workers[i].key))
        case Forget => DropTags(s.index, c.tags)
        case _ => s.index,
      if e.DeleteL1? && !e.fails then s.l1 - {s.workers[e.i].key} else s.l1,
      if e.DeleteL2? && !e.fails then s.l2 - {s.workers[e.i].key} else s.l2,
      if e.Acquire? then s.calls + [s.workers[e.i].key] else s.calls)
  }

  // ----- Counting -----

  predicate InSlot(pc: Pc) { pc.Deleting? || pc.AtLock? || pc.Splicing? || pc.AtExit? }

  predicate Outstanding(pc: Pc) { pc.AtSemaphore? || InSlot(pc) || pc.Leaving? }

  function InSlots(ws: seq<Worker>): nat {
    if ws == [] then 0 else InSlots(ws[1..]) + if InSlot(ws[0].pc) then 1 else 0
  }

  function AllOutstanding(ws: seq<Worker>): nat {
    if ws == [] then 0 else AllOutstanding(ws[1..]) + if Outstanding(ws[0].pc) then 1 else 0
  }

  function HalfRank(h: Half): nat {
    match h case Running => 2 case Queued(_) => 1 case Taken(_) => 0
  }

  /** How many steps a worker can still make, given a bound on the number of tags. */
  function Rank(w: Worker, bound: nat): nat {
    match w.pc
    case Unborn => bound + 11
    case AtSemaphore => bound + 10
    case Deleting => bound + 5 + HalfRank(w.h1) + HalfRank(w.h2)
    case AtLock => bound + 4
    case Splicing(todo) => |todo| + 3
    case AtExit => 2
    case Leaving => 1
    case Done => 0
  }

  function Ranks(ws: seq<Worker>, bound: nat): nat {
    if ws == [] then 0 else Rank(ws[0], bound) + Ranks(ws[1..], bound)
  }

  function Measure(c: Call, s: State): nat {
    Ranks(s.workers, |c.index|) + match s.main case Starting(_) => 2 case Forgetting => 1 case Finished => 0
  }

  lemma {:induction false} OneWorkerChanges(ws: seq<Worker>, i: nat, w: Worker, bound: nat)
    requires i < |ws|
    ensures InSlots(ws[i := w]) + (if InSlot(ws[i].pc) then 1 else 0)
         == InSlots(ws) + if InSlot(w.pc) then 1 else 0
    ensures AllOutstanding(ws[i := w]) + (if Outstanding(ws[i].pc) then 1 else 0)
         == AllOutstanding(ws) + if Outstanding(w.pc) then 1 else 0
    ensures Ranks(ws[i := w], bound) + Rank(ws[i], bound) == Ranks(ws, bound) + Rank(w, bound)
  {
    if i == 0 {
      assert ws[i := w][1..] == ws[1..];
    } else {
      OneWorkerChanges(ws[1..], i - 1, w, bound);
      assert ws[i := w][1..] == ws[1..][i - 1 := w];
    }
  }

  lemma {:induction false} SomeoneIsThere(ws: seq<Worker>)
    ensures InSlots(ws) > 0 ==> exists i :: 0 <= i < |ws| && InSlot(ws[i].pc)
    ensures AllOutstanding(ws) > 0 <==> exists i :: 0 <= i < |ws| && Outstanding(ws[i].pc)
    ensures (forall i :: 0 <= i < |ws| ==> !InSlot(ws[i].pc)) ==> InSlots(ws) == 0
  {
    if ws != [] {
      SomeoneIsThere(ws[1..]);
      assert forall i :: 0 <= i < |ws| - 1 ==> ws[1..][i] == ws[i + 1];
      if AllOutstanding(ws[1..]) > 0 {
        var i :| 0 <= i < |ws| - 1 && Outstanding(ws[1..][i].pc);
        assert Outstanding(ws[i + 1].pc);
      }
      if InSlots(ws[1..]) > 0 {
        var i :| 0 <= i < |ws| - 1 && InSlot(ws[1..][i].pc);
        assert InSlot(ws[i + 1].pc);
      }
      if exists i :: 0 <= i < |ws| && Outstanding(ws[i].pc) {
        var i :| 0 <= i < |ws| && Outstanding(ws[i].pc);
        if i > 0 {
          assert Outstanding(ws[1..][i - 1].pc);
        }
      }
    }
  }

  // ----- The protocol invariant -----

  predicate Counted(c: Call, s: State) {
    s.slots == InSlots(s.workers) && s.slots <= LIMIT && s.wg == AllOutstanding(s.workers)
  }

  /** What is true of worker i by itself. */
  predicate WorkerOk(c: Call, s: State, i: nat)
    requires i < |s.workers|
  {
    var w := s.workers[i];
    && (w.pc.Splicing? <==> s.mu == HeldBy(i))
    && (w.pc.Splicing? ==> w.pc.todo <= s.index.Keys)
    && (w.pc.Unborn? || w.pc.AtSemaphore? ==> w.h1.Running? && w.h2.Running?)
    && (w.pc.AtLock? || w.pc.Splicing? ==> Succeeded(w))
    && (w.pc.AtExit? || w.pc.Leaving? || w.pc.Done? ==> w.h1.Taken? && w.h2.Taken?)
    && (s.main.Starting? ==> (w.pc.Unborn? <==> s.main.next <= i))
    && (!s.main.Starting? ==> w.pc.Done?)
    && (w.key in s.calls <==> !w.pc.Unborn? && !w.pc.AtSemaphore?)
  }

  predicate Protocol(c: Call, s: State) {
    && |s.workers| == |Keys(c)|
    && (forall i | 0 <= i < |s.workers| :: s.workers[i].key == Keys(c)[i])
    && Counted(c, s)
    && (forall i | 0 <= i < |s.workers| :: WorkerOk(c, s, i))
    && (s.main.Starting? ==> s.main.next <= |s.workers|)
    && (s.mu == HeldByMain <==> s.main.Forgetting?)
    && (s.mu.HeldBy? ==> s.mu.i < |s.workers|)
    && s.index.Keys <= c.index.Keys
    && NoDup(s.calls) && (forall k | k in s.calls :: k in Keys(c))
  }

  lemma ProtocolAtStart(c: Call)
    ensures Protocol(c, Init(c))
  {
    var s := Init(c);
    SomeoneIsThere(s.workers);
    assert forall i | 0 <= i < |s.workers| :: s.workers[i].pc == Unborn;
  }

  lemma DistinctKeys(c: Call, s: State, i: nat, j: nat)
    requires Protocol(c, s) && i < |s.workers| && j < |s.workers| && i != j
    ensures s.workers[i].key != s.workers[j].key
  {
    UniqueElements(KeysUnder(c.index, c.tags));
  }

  lemma CountedKept(c: Call, s: State, e: Event)
    requires Protocol(c, s) && Enabled(s, e)
    ensures Counted(c, Next(c, s, e))
  {
    if Mover(s, e).Some? {
      var i := Mover(s, e).value;
      var s' := Next(c, s, e);
      assert WorkerOk(c, s, i);
      assert s'.workers == s.workers[i := s'.workers[i]];
      OneWorkerChanges(s.workers, i, s'.workers[i], 0);
    }
  }

  lemma OthersKept(c: Call, s: State, e: Event, j: nat)
    requires Protocol(c, s) && Enabled(s, e) && j < |s.workers| && Mover(s, e) != Some(j)
    ensures |Next(c, s, e).workers| == |s.workers| && Next(c, s, e).workers[j] == s.workers[j]
    ensures WorkerOk(c, Next(c, s, e), j)
  {
    assert WorkerOk(c, s, j);
    if Mover(s, e).Some? {
      var i := Mover(s, e).value;
      assert WorkerOk(c, s, i);
      DistinctKeys(c, s, i, j);
    } else if e.MainLock? {
      SomeoneIsThere(s.workers);
    }
  }

  predicate ByLockOrLater(e: Event) {
    e.TakeLock? || e.Splice? || e.Unlock? || e.Release? || e.WgDone?
  }

  lemma MoverKeptBefore(c: Call, s: State, e: Event, i: nat)
    requires Protocol(c, s) && Enabled(s, e) && Mover(s, e) == Some(i) && !ByLockOrLater(e)
    ensures |Next(c, s, e).workers| == |s.workers| && Next(c, s, e).workers[i].key == s.workers[i].key
    ensures WorkerOk(c, Next(c, s, e), i)
  {
    assert WorkerOk(c, s, i);
  }

  lemma MoverKeptAfter(c: Call, s: State, e: Event, i: nat)
    requires Protocol(c, s) && Enabled(s, e) && Mover(s, e) == Some(i) && ByLockOrLater(e)
    ensures |Next(c, s, e).workers| == |s.workers| && Next(c, s, e).workers[i].key == s.workers[i].key
    ensures WorkerOk(c, Next(c, s, e), i)
  {
    assert WorkerOk(c, s, i);
  }

  lemma MoverKept(c: Call, s: State, e: Event, i: nat)
    requires Protocol(c, s) && Enabled(s, e) && Mover(s, e) == Some(i)
    ensures |Next(c, s, e).workers| == |s.workers| && Next(c, s, e).workers[i].key == s.workers[i].key
    ensures WorkerOk(c, Next(c, s, e), i)
  {
    if ByLockOrLater(e) {
      MoverKeptAfter(c, s, e, i);
    } else {
      MoverKeptBefore(c, s, e, i);
    }
  }

  lemma ProtocolKept(c: Call, s: State, e: Event)
    requires Protocol(c, s) && Enabled(s, e)
    ensures Protocol(c, Next(c, s, e))
  {
    var s' := Next(c, s, e);
    CountedKept(c, s, e);
    forall j | 0 <= j < |s.workers|
      ensures |s'.workers| == |s.workers| && s'.workers[j].key == s.workers[j].key && WorkerOk(c, s', j)
    {
      if Mover(s, e) == Some(j) {
        MoverKept(c, s, e, j);
      } else {
        OthersKept(c, s, e, j);
      }
    }
    if e.Acquire? {
      assert WorkerOk(c, s, e.i);
      assert s.workers[e.i].key == Keys(c)[e.i];
    }
    if e.Splice? {
      assert WorkerOk(c, s, e.i);
    }
  }

  /** As long as the call has not finished somebody can move. */
  lemma NeverStuck(c: Call, s: State) returns (e: Event)
    requires Protocol(c, s) && !s.main.Finished?
    ensures Enabled(s, e)
  {
    SomeoneIsThere(s.workers);
    if s.main.Forgetting? {
      e := Event.Forget;
    } else if s.main.next < |s.workers| {
      e := Spawn;
    } else if s.mu.HeldBy? {
      e := HolderMoves(c, s);
    } else if s.slots > 0 {
      var i :| 0 <= i < |s.workers| && InSlot(s.workers[i].pc);
      assert WorkerOk(c, s, i);
      var w := s.workers[i];
      e := if w.pc.AtLock? then TakeLock(i)
           else if w.pc.AtExit? then Release(i)
           else if w.h1.Running? then DeleteL1(i, false)
           else if w.h2.Running? then DeleteL2(i, false)
           else if w.h1.Queued? then Receive1(i)
           else if w.h2.Queued? then Receive2(i)
           else Judge(i);
    } else if s.wg > 0 {
      var i :| 0 <= i < |s.workers| && Outstanding(s.workers[i].pc);
      assert WorkerOk(c, s, i);
      NobodyInSlot(s.workers, i);
      e := if s.workers[i].pc.AtSemaphore? then Acquire(i) else WgDone(i);
    } else {
      e := MainLock;
    }
  }

  lemma HolderMoves(c: Call, s: State) returns (e: Event)
    requires Protocol(c, s) && s.mu.HeldBy?
    ensures Enabled(s, e) && Mover(s, e) == Some(s.mu.i)
  {
    var i := s.mu.i;
    assert WorkerOk(c, s, i);
    if s.workers[i].pc.todo == {} {
      e := Unlock(i);
    } else {
      var t :| t in s.workers[i].pc.todo;
      e := Splice(i, t);
    }
  }

  lemma {:induction false} NobodyInSlot(ws: seq<Worker>, i: nat)
    requires i < |ws| && InSlots(ws) == 0
    ensures !InSlot(ws[i].pc)
  {
    if i > 0 {
      NobodyInSlot(ws[1..], i - 1);
    }
  }

  lemma {:induction false} SubsetIsSmaller(a: set<Tag>, b: set<Tag>)
    requires a <= b
    ensures |a| <= |b|
  {
    if a != {} {
      var t :| t in a;
      SubsetIsSmaller(a - {t}, b - {t});
    }
  }

  lemma RankDrops(s: State, e: Event, i: nat, bound: nat)
    requires Enabled(s, e) && Mover(s, e) == Some(i) && |s.index.Keys| <= bound
    requires s.workers[i].pc.Splicing? ==> |s.workers[i].pc.todo| <= bound
    requires e.Spawn? ==> s.workers[i].pc.Unborn?
    requires s.workers[i].pc.AtSemaphore? || s.workers[i].pc.Unborn? ==>
               s.workers[i].h1.Running? && s.workers[i].h2.Running?
    ensures Rank(After(s.workers[i], e, s.index.Keys), bound) < Rank(s.workers[i], bound)
  {
    var w := s.workers[i];
    if e.Splice? {
      OneTagLess(w.pc.todo, e.t);
    } else if !e.TakeLock? {
      StepRankDrops(w, e, s.index.Keys, bound);
    }
  }

  lemma OneTagLess(todo: set<Tag>, t: Tag)
    requires t in todo
    ensures |todo - {t}| < |todo|
  {
    assert todo == (todo - {t}) + {t};
  }

  lemma StepRankDrops(w: Worker, e: Event, tags: set<Tag>, bound: nat)
    requires match e
             case Spawn => w.pc.Unborn?
             case Acquire(_) => w.pc.AtSemaphore? && w.h1.Running? && w.h2.Running?
             case DeleteL1(_, _) => w.pc.Deleting? && w.h1.Running?
             case DeleteL2(_, _) => w.pc.Deleting? && w.h2.Running?
             case Receive1(_) => w.pc.Deleting? && w.h1.Queued?
             case Receive2(_) => w.pc.Deleting? && w.h2.Queued?
             case Judge(_) => w.pc.Deleting? && w.h1.Taken? && w.h2.Taken?
             case Unlock(_) => w.pc.Splicing?
             case Release(_) => w.pc.AtExit?
             case WgDone(_) => w.pc.Leaving?
             case _ => false
    ensures Rank(After(w, e, tags), bound) < Rank(w, bound)
  {
  }

  lemma OnlyMoverChanges(c: Call, s: State, e: Event)
    requires Enabled(s, e)
    ensures match Mover(s, e)
            case Some(i) =>
              && i < |s.workers|
              && Next(c, s, e).workers == s.workers[i := After(s.workers[i], e, s.index.Keys)]
            case None => Next(c, s, e).workers == s.workers
  {
  }

  /** Every step of anybody makes the measure smaller. */
  lemma MeasureDecreases(c: Call, s: State, e: Event)
    requires Protocol(c, s) && Enabled(s, e)
    ensures Measure(c, Next(c, s, e)) < Measure(c, s)
  {
    OnlyMoverChanges(c, s, e);
    if Mover(s, e).Some? {
      var i := Mover(s, e).value;
      assert WorkerOk(c, s, i);
      SubsetIsSmaller(s.index.Keys, c.index.Keys);
      if s.workers[i].pc.Splicing? {
        SubsetIsSmaller(s.workers[i].pc.todo, c.index.Keys);
      }
      RankDrops(s, e, i, |c.index|);
      OneWorkerChanges(s.workers, i, After(s.workers[i], e, s.index.Keys), |c.index|);
    }
  }

  // ----- What the workers have done so far -----

  /** The worker has taken its key out of the list of t. */
  predicate Spliced(w: Worker, t: Tag) {
    match w.pc
    case Splicing(todo) => t !in todo
    case AtExit => Succeeded(w)
    case Leaving => Succeeded(w)
    case Done => Succeeded(w)
    case _ => false
  }

  function Gone(ws: seq<Worker>, t: Tag): set<Key> {
    set i | 0 <= i < |ws| && Spliced(ws[i], t) :: ws[i].key
  }

  predicate Deleted(h: Half) { h == Queued(true) || h == Taken(true) }

  predicate DeletedL1(ws: seq<Worker>, k: Key) {
    exists i | 0 <= i < |ws| :: ws[i].key == k && Deleted(ws[i].h1)
  }

  predicate DeletedL2(ws: seq<Worker>, k: Key) {
    exists i | 0 <= i < |ws| :: ws[i].key == k && Deleted(ws[i].h2)
  }

  predicate ListOk(c: Call, s: State, t: Tag) {
    && ListOf(s.index, t) == Without(ListOf(c.index, t), Gone(s.workers, t))
    && (t in s.index ==> s.index[t] != [])
  }

  predicate CachesOk(c: Call, s: State, k: Key) {
    && Lookup(s.l1, k) == (if DeletedL1(s.workers, k) then None else Lookup(c.l1, k))
    && Lookup(s.l2, k) == (if DeletedL2(s.workers, k) then None else Lookup(c.l2, k))
  }

  /** The keys whose two deletes went through. */
  function Hit(ws: seq<Worker>): set<Key> {
    set i | 0 <= i < |ws| && Succeeded(ws[i]) :: ws[i].key
  }

  ghost predicate Effect(c: Call, s: State) {
    && (forall k :: CachesOk(c, s, k))
    && (if s.main.Finished? then s.index == DropTags(RemoveAll(c.index, Hit(s.workers)), c.tags)
        else forall t :: ListOk(c, s, t))
  }

  lemma GoneChanges(ws: seq<Worker>, i: nat, w: Worker, t: Tag)
    requires i < |ws| && w.key == ws[i].key && (Spliced(ws[i], t) ==> Spliced(w, t))
    ensures Gone(ws[i := w], t) == Gone(ws, t) + if Spliced(w, t) then {w.key} else {}
  {
    var ws' := ws[i := w];
    forall k | k in Gone(ws, t)
      ensures k in Gone(ws', t)
    {
      var j :| 0 <= j < |ws| && Spliced(ws[j], t) && ws[j].key == k;
      assert ws'[j].key == k && Spliced(ws'[j], t);
    }
    if Spliced(w, t) {
      assert ws'[i] == w;
    }
  }

  lemma SplicedOnlyGrows(c: Call, s: State, e: Event, i: nat, t: Tag)
    requires Enabled(s, e) && Mover(s, e) == Some(i) && WorkerOk(c, s, i)
    ensures
      var w, w' := s.workers[i], Next(c, s, e).workers[i];
      && w'.key == w.key
      && (Spliced(w, t) ==> Spliced(w', t))
      && (Spliced(w', t) && !Spliced(w, t) ==>
            (e == TakeLock(i) && t !in s.index) || e == Splice(i, t))
  {
  }

  lemma OneListChanges(c: Call, s: State, e: Event, t: Tag)
    requires Enabled(s, e) && !e.Forget? && (t in s.index ==> s.index[t] != [])
    ensures
      var before, after := s.index, Next(c, s, e).index;
      && ListOf(after, t) == (if e.Splice? && e.t == t then DropFirst(ListOf(before, t), s.workers[e.i].key)
                              else ListOf(before, t))
      && (t in after ==> after[t] != [])
  {
  }

  /** A worker visits the list of t: it splices its key out, or finds the tag gone. */
  lemma ListKeptByVisit(c: Call, s: State, e: Event, i: nat, t: Tag)
    requires Protocol(c, s) && Enabled(s, e) && ListOk(c, s, t) && Mover(s, e) == Some(i)
    requires WellFormed(c.index) && !Spliced(s.workers[i], t) && Spliced(Next(c, s, e).workers[i], t)
    ensures ListOk(c, Next(c, s, e), t)
  {
    assert WorkerOk(c, s, i);
    OnlyMoverChanges(c, s, e);
    SplicedOnlyGrows(c, s, e, i, t);
    var w' := Next(c, s, e).workers[i];
    OneListChanges(c, s, e, t);
    GoneChanges(s.workers, i, w', t);
    var list, gone := ListOf(c.index, t), Gone(s.workers, t);
    assert ListOf(s.index, t) == Without(list, gone);
    RemoveOneMoreFrom(list, gone, w'.key);
  }

  lemma ListKeptByOthers(c: Call, s: State, e: Event, t: Tag)
    requires Protocol(c, s) && Enabled(s, e) && ListOk(c, s, t) && !e.Forget?
    requires Mover(s, e).Some? ==>
               var i := Mover(s, e).value; Spliced(s.workers[i], t) || !Spliced(Next(c, s, e).workers[i], t)
    ensures ListOk(c, Next(c, s, e), t)
  {
    OnlyMoverChanges(c, s, e);
    OneListChanges(c, s, e, t);
    if Mover(s, e).Some? {
      var i := Mover(s, e).value;
      assert WorkerOk(c, s, i);
      SplicedOnlyGrows(c, s, e, i, t);
      GoneChanges(s.workers, i, Next(c, s, e).workers[i], t);
      assert Spliced(s.workers[i], t) ==> s.workers[i].key in Gone(s.workers, t);
      assert Gone(Next(c, s, e).workers, t) == Gone(s.workers, t);
      assert e != Splice(i, t);
    }
  }

  lemma ListKept(c: Call, s: State, e: Event, t: Tag)
    requires Protocol(c, s) && Enabled(s, e) && ListOk(c, s, t)
    requires WellFormed(c.index) && !e.Forget?
    ensures ListOk(c, Next(c, s, e), t)
  {
    OnlyMoverChanges(c, s, e);
    var mover := Mover(s, e);
    if mover.Some? && !Spliced(s.workers[mover.value], t) && Spliced(Next(c, s, e).workers[mover.value], t) {
      ListKeptByVisit(c, s, e, mover.value, t);
    } else {
      ListKeptByOthers(c, s, e, t);
    }
  }

  lemma CachesKept(c: Call, s: State, e: Event, k: Key)
    requires Protocol(c, s) && Enabled(s, e) && CachesOk(c, s, k)
    ensures CachesOk(c, Next(c, s, e), k)
  {
    OnlyMoverChanges(c, s, e);
    if Mover(s, e).Some? {
      var i := Mover(s, e).value;
      var ws, ws' := s.workers, Next(c, s, e).workers;
      HalvesOnlyGrow(s, c, e, i);
      DeletedChanges(ws, i, ws'[i], k);
    }
  }

  lemma HalvesOnlyGrow(s: State, c: Call, e: Event, i: nat)
    requires Enabled(s, e) && Mover(s, e) == Some(i)
    ensures
      var w, w' := s.workers[i], Next(c, s, e).workers[i];
      && w'.key == w.key
      && (Deleted(w'.h1) <==> Deleted(w.h1) || e == DeleteL1(i, false))
      && (Deleted(w'.h2) <==> Deleted(w.h2) || e == DeleteL2(i, false))
      && Next(c, s, e).l1 == (if e == DeleteL1(i, false) then s.l1 - {w.key} else s.l1)
      && Next(c, s, e).l2 == (if e == DeleteL2(i, false) then s.l2 - {w.key} else s.l2)
  {
  }

  lemma DeletedChanges(ws: seq<Worker>, i: nat, w: Worker, k: Key)
    requires i < |ws| && w.key == ws[i].key
    requires (Deleted(ws[i].h1) ==> Deleted(w.h1)) && (Deleted(ws[i].h2) ==> Deleted(w.h2))
    ensures DeletedL1(ws[i := w], k) <==> DeletedL1(ws, k) || (w.key == k && Deleted(w.h1))
    ensures DeletedL2(ws[i := w], k) <==> DeletedL2(ws, k) || (w.key == k && Deleted(w.h2))
  {
    var ws' := ws[i := w];
    assert ws'[i] == w;
    if DeletedL1(ws, k) {
      var j :| 0 <= j < |ws| && ws[j].key == k && Deleted(ws[j].h1);
      assert ws'[j].key == k && Deleted(ws'[j].h1);
    }
    if DeletedL2(ws, k) {
      var j :| 0 <= j < |ws| && ws[j].key == k && Deleted(ws[j].h2);
      assert ws'[j].key == k && Deleted(ws'[j].h2);
    }
  }

  lemma GoneAtTheEnd(ws: seq<Worker>, t: Tag)
    requires forall i | 0 <= i < |ws| :: ws[i].pc.Done?
    ensures Gone(ws, t) == Hit(ws)
  {
    assert forall i | 0 <= i < |ws| :: Spliced(ws[i], t) <==> Succeeded(ws[i]);
    forall k | k in Gone(ws, t)
      ensures k in Hit(ws)
    {
      var i :| 0 <= i < |ws| && Spliced(ws[i], t) && ws[i].key == k;
      assert Succeeded(ws[i]);
    }
    forall k | k in Hit(ws)
      ensures k in Gone(ws, t)
    {
      var i :| 0 <= i < |ws| && Succeeded(ws[i]) && ws[i].key == k;
      assert Spliced(ws[i], t);
    }
  }

  lemma ForgetEffect(c: Call, s: State)
    requires Protocol(c, s) && s.main.Forgetting? && forall t :: ListOk(c, s, t)
    ensures s.index == RemoveAll(c.index, Hit(s.workers))
  {
    forall i | 0 <= i < |s.workers|
      ensures s.workers[i].pc.Done?
    {
      assert WorkerOk(c, s, i);
    }
    forall t
      ensures ListOf(s.index, t) == Without(ListOf(c.index, t), Hit(s.workers))
      ensures t in s.index <==> ListOf(s.index, t) != []
    {
      GoneAtTheEnd(s.workers, t);
      assert ListOk(c, s, t);
    }
  }

  lemma EffectAtStart(c: Call)
    requires WellFormed(c.index)
    ensures Effect(c, Init(c))
  {
    forall t
      ensures ListOk(c, Init(c), t)
    {
      assert Gone(Init(c).workers, t) == {};
      WithoutNone(ListOf(c.index, t), {});
    }
  }

  lemma EffectKept(c: Call, s: State, e: Event)
    requires Protocol(c, s) && Effect(c, s) && Enabled(s, e) && WellFormed(c.index)
    ensures Effect(c, Next(c, s, e))
  {
    forall k
      ensures CachesOk(c, Next(c, s, e), k)
    {
      CachesKept(c, s, e, k);
    }
    NotAfterTheEnd(c, s, e);
    if e.Forget? {
      ForgetEffect(c, s);
    } else {
      forall t
        ensures ListOk(c, Next(c, s, e), t)
      {
        ListKept(c, s, e, t);
      }
    }
  }

  /** Nothing moves once the call has finished. */
  lemma NotAfterTheEnd(c: Call, s: State, e: Event)
    requires Protocol(c, s) && Enabled(s, e)
    ensures !s.main.Finished?
    ensures Next(c, s, e).main.Finished? <==> e.Forget?
  {
    if Mover(s, e).Some? {
      assert WorkerOk(c, s, Mover(s, e).value);
    }
  }

  // ----- Whole runs -----

  function Run(c: Call, events: seq<Event>): Option<State> {
    if events == [] then Some(Init(c))
    else
      match Run(c, events[..|events| - 1])
      case None => None
      case Some(s) => if Enabled(s, events[|events| - 1]) then Some(Next(c, s, events[|events| - 1])) else None
  }

  lemma {:induction false} ReachableStates(c: Call, events: seq<Event>)
    requires Run(c, events).Some?
    ensures Protocol(c, Run(c, events).value)
    ensures WellFormed(c.index) ==> Effect(c, Run(c, events).value)
    ensures |events| + Measure(c, Run(c, events).value) <= Measure(c, Init(c))
  {
    if events == [] {
      ProtocolAtStart(c);
      if WellFormed(c.index) {
        EffectAtStart(c);
      }
    } else {
      var before, e := events[..|events| - 1], events[|events| - 1];
      ReachableStates(c, before);
      var s := Run(c, before).value;
      ProtocolKept(c, s, e);
      MeasureDecreases(c, s, e);
      if WellFormed(c.index) {
        EffectKept(c, s, e);
      }
    }
  }

  /** In every schedule: at most ten workers are past the semaphore; at most one goroutine is inside
      the index lock, and the one that is can itself make a step, waiting for nobody; no key is handed to
      InvalidateKey twice; and unless the call has finished somebody can move. */
  lemma ProtocolIsSafe(c: Call, events: seq<Event>)
    requires Run(c, events).Some?
    ensures
      var s := Run(c, events).value;
      && InSlots(s.workers) <= 10
      && (forall i, j | 0 <= i < |s.workers| && 0 <= j < |s.workers| ::
            s.workers[i].pc.Splicing? && s.workers[j].pc.Splicing? ==> i == j && s.main.Starting?)
      && (s.mu.HeldBy? ==> s.mu.i < |s.workers| && s.workers[s.mu.i].pc.Splicing?)
      && (s.mu.HeldBy? ==> exists e :: Enabled(s, e) && Mover(s, e) == Some(s.mu.i))
      && (s.mu.HeldByMain? ==> Enabled(s, Event.Forget))
      && NoDup(s.calls)
      && (!s.main.Finished? ==> exists e :: Enabled(s, e))
  {
    ReachableStates(c, events);
    var s := Run(c, events).value;
    OneInsideTheLock(c, s);
    if s.mu.HeldBy? {
      var e := HolderMoves(c, s);
    }
    if !s.main.Finished? {
      var e := NeverStuck(c, s);
    }
  }

  lemma OneInsideTheLock(c: Call, s: State)
    requires Protocol(c, s)
    ensures forall i, j | 0 <= i < |s.workers| && 0 <= j < |s.workers| ::
              s.workers[i].pc.Splicing? && s.workers[j].pc.Splicing? ==> i == j && s.main.Starting?
    ensures s.mu.HeldBy? ==> s.workers[s.mu.i].pc.Splicing?
  {
    forall i | 0 <= i < |s.workers|
      ensures s.workers[i].pc.Splicing? <==> s.mu == HeldBy(i)
      ensures s.workers[i].pc.Splicing? ==> s.main.Starting?
    {
      assert WorkerOk(c, s, i);
    }
  }

  /** The first n workers have passed the semaphore and no other has been started. */
  predicate FirstAreIn(c: Call, s: State, n: nat) {
    && n <= |s.workers| == |Keys(c)| && n <= LIMIT
    && s.main == Starting(n) && s.slots == n
    && forall i | 0 <= i < |s.workers| :: if i < n then s.workers[i].pc == Deleting else s.workers[i].pc == Unborn
  }

  lemma OneMoreStep(c: Call, s: State, n: nat)
    requires FirstAreIn(c, s, n) && n < |Keys(c)| && n < LIMIT
    ensures Enabled(s, Spawn) && Enabled(Next(c, s, Spawn), Acquire(n))
    ensures FirstAreIn(c, Next(c, Next(c, s, Spawn), Acquire(n)), n + 1)
  {
  }

  lemma OneMoreIsIn(c: Call, events: seq<Event>, n: nat)
    requires Run(c, events).Some? && FirstAreIn(c, Run(c, events).value, n) && n < |Keys(c)| && n < LIMIT
    ensures Run(c, events + [Spawn, Acquire(n)]).Some?
    ensures FirstAreIn(c, Run(c, events + [Spawn, Acquire(n)]).value, n + 1)
  {
    var s := Run(c, events).value;
    var both := events + [Spawn, Acquire(n)];
    assert both[..|both| - 1] == events + [Spawn];
    assert (events + [Spawn])[..|events|] == events;
    OneMoreStep(c, s, n);
    assert Run(c, events + [Spawn]) == Some(Next(c, s, Spawn));
  }

  lemma {:induction false} ManyAtOnce(c: Call, n: nat) returns (events: seq<Event>)
    requires n <= |Keys(c)| && n <= LIMIT
    ensures Run(c, events).Some? && FirstAreIn(c, Run(c, events).value, n)
  {
    if n == 0 {
      events := [];
    } else {
      var before := ManyAtOnce(c, n - 1);
      OneMoreIsIn(c, before, n - 1);
      events := before + [Spawn, Acquire(n - 1)];
    }
  }

  /** The bound is reached: with ten keys or more, ten workers can be deleting at once. */
  lemma TenAtOnce(c: Call) returns (events: seq<Event>)
    requires |Keys(c)| >= 10
    ensures Run(c, events).Some?
    ensures
      var s := Run(c, events).value;
      |s.workers| == |Keys(c)| && forall i | 0 <= i < 10 :: s.workers[i].pc == Deleting
  {
    events := ManyAtOnce(c, 10);
  }

  /** The events lead from s to the end of the call. */
  predicate Finishes(c: Call, s: State, events: seq<Event>)
    decreases |events|
  {
    if events == [] then s.main.Finished?
    else Enabled(s, events[0]) && Finishes(c, Next(c, s, events[0]), events[1..])
  }

  lemma {:induction false} CanFinish(c: Call, s: State) returns (more: seq<Event>)
    requires Protocol(c, s)
    ensures Finishes(c, s, more)
    decreases Measure(c, s)
  {
    if s.main.Finished? {
      more := [];
    } else {
      var e := NeverStuck(c, s);
      ProtocolKept(c, s, e);
      MeasureDecreases(c, s, e);
      var rest := CanFinish(c, Next(c, s, e));
      more := [e] + rest;
      assert more[1..] == rest;
    }
  }

  /** No run is longer than the measure of its start, and from wherever it has got, the call can
      finish. */
  lemma EveryRunFinishes(c: Call, events: seq<Event>) returns (more: seq<Event>)
    requires Run(c, events).Some?
    ensures |events| <= Measure(c, Init(c))
    ensures Finishes(c, Run(c, events).value, more)
  {
    ReachableStates(c, events);
    more := CanFinish(c, Run(c, events).value);
  }

  // ----- The effect of a finished call -----

  /** The keys whose deletes failed in the run, on each level. */
  function FaultsIn(c: Call, events: seq<Event>): Jobs.Faults {
    Jobs.Faults(set i | 0 <= i < |Keys(c)| && DeleteL1(i, true) in events :: Keys(c)[i],
                set i | 0 <= i < |Keys(c)| && DeleteL2(i, true) in events :: Keys(c)[i])
  }

  /** A half knows whether its delete has gone through, has failed, or has yet to be made. */
  predicate Tells(h: Half, wentThrough: bool, failed: bool) {
    match h
    case Running => !wentThrough && !failed
    case Queued(ok) => wentThrough == ok && failed == !ok
    case Taken(ok) => wentThrough == ok && failed == !ok
  }

  lemma OneHalfMoves(c: Call, s: State, e: Event, i: nat)
    requires Enabled(s, e) && i < |s.workers|
    ensures |Next(c, s, e).workers| == |s.workers|
    ensures
      var w, w' := s.workers[i], Next(c, s, e).workers[i];
      && w'.key == w.key
      && (w'.h1 == w.h1
          || (w.h1.Running? && e.DeleteL1? && e.i == i && w'.h1 == Queued(!e.fails))
          || (w.h1.Queued? && w'.h1 == Taken(w.h1.ok)))
      && (e.DeleteL1? && e.i == i ==> w.h1.Running? && w'.h1 == Queued(!e.fails))
      && (w'.h2 == w.h2
          || (w.h2.Running? && e.DeleteL2? && e.i == i && w'.h2 == Queued(!e.fails))
          || (w.h2.Queued? && w'.h2 == Taken(w.h2.ok)))
      && (e.DeleteL2? && e.i == i ==> w.h2.Running? && w'.h2 == Queued(!e.fails))
  {
  }

  lemma {:induction false} HalvesTell(c: Call, events: seq<Event>, i: nat)
    requires Run(c, events).Some? && i < |Keys(c)|
    ensures |Run(c, events).value.workers| == |Keys(c)|
    ensures
      var w := Run(c, events).value.workers[i];
      && w.key == Keys(c)[i]
      && Tells(w.h1, DeleteL1(i, false) in events, DeleteL1(i, true) in events)
      && Tells(w.h2, DeleteL2(i, false) in events, DeleteL2(i, true) in events)
  {
    if events != [] {
      var before, e := events[..|events| - 1], events[|events| - 1];
      HalvesTell(c, before, i);
      OneHalfMoves(c, Run(c, before).value, e, i);
      assert events == before + [e];
      assert forall fails :: DeleteL1(i, fails) in events <==> DeleteL1(i, fails) in before || e == DeleteL1(i, fails);
      assert forall fails :: DeleteL2(i, fails) in events <==> DeleteL2(i, fails) in before || e == DeleteL2(i, fails);
    }
  }

  lemma AllHanded(c: Call, s: State)
    requires Protocol(c, s) && s.main.Finished?
    ensures forall i | 0 <= i < |s.workers| :: s.workers[i].h1.Taken? && s.workers[i].h2.Taken?
    ensures forall k :: k in s.calls <==> k in Keys(c)
    ensures s.slots == 0 && s.wg == 0 && s.mu == Free
  {
    forall i | 0 <= i < |s.workers|
      ensures s.workers[i].pc.Done? && Keys(c)[i] in s.calls && s.mu != HeldBy(i)
      ensures s.workers[i].h1.Taken? && s.workers[i].h2.Taken?
    {
      assert WorkerOk(c, s, i);
    }
    SomeoneIsThere(s.workers);
  }

  /** In a finished call each worker's replies say which of its deletes failed in the run. */
  lemma RepliesAreFaults(c: Call, events: seq<Event>, i: nat)
    requires Run(c, events).Some? && Run(c, events).value.main.Finished? && i < |Keys(c)|
    ensures |Run(c, events).value.workers| == |Keys(c)|
    ensures
      var w, f := Run(c, events).value.workers[i], FaultsIn(c, events);
      && w.key == Keys(c)[i]
      && w.h1 == Taken(w.key !in f.l1)
      && w.h2 == Taken(w.key !in f.l2)
  {
    ReachableStates(c, events);
    AllHanded(c, Run(c, events).value);
    HalvesTell(c, events, i);
    UniqueElements(KeysUnder(c.index, c.tags));
    assert forall j | 0 <= j < |Keys(c)| && Keys(c)[j] == Keys(c)[i] :: j == i;
  }

  lemma WorkerOfKey(c: Call, events: seq<Event>, k: Key) returns (i: nat)
    requires Run(c, events).Some? && k in Keys(c)
    ensures i < |Keys(c)| && |Run(c, events).value.workers| == |Keys(c)|
    ensures
      var ws := Run(c, events).value.workers;
      ws[i].key == k && forall j | 0 <= j < |ws| && ws[j].key == k :: j == i
  {
    ReachableStates(c, events);
    UniqueElements(KeysUnder(c.index, c.tags));
    i :| 0 <= i < |Keys(c)| && Keys(c)[i] == k;
  }

  lemma NoWorkerForOthers(c: Call, events: seq<Event>, k: Key)
    requires Run(c, events).Some? && k !in Keys(c)
    ensures forall w | w in Run(c, events).value.workers :: w.key != k
  {
    ReachableStates(c, events);
    assert forall i | 0 <= i < |Keys(c)| :: Keys(c)[i] in Keys(c);
  }

  /** So the deletes that went through are those of all keys but the ones that failed. */
  lemma DeletedAtTheEnd(c: Call, events: seq<Event>, k: Key)
    requires Run(c, events).Some? && Run(c, events).value.main.Finished?
    ensures
      var ws, f := Run(c, events).value.workers, FaultsIn(c, events);
      && (DeletedL1(ws, k) <==> k in Keys(c) && k !in f.l1)
      && (DeletedL2(ws, k) <==> k in Keys(c) && k !in f.l2)
      && (k in Hit(ws) <==> k in Keys(c) && k !in f.l1 && k !in f.l2)
  {
    var ws := Run(c, events).value.workers;
    if k in Keys(c) {
      var i := WorkerOfKey(c, events, k);
      RepliesAreFaults(c, events, i);
      assert Deleted(ws[i].h1) <==> k !in FaultsIn(c, events).l1;
      assert Deleted(ws[i].h2) <==> k !in FaultsIn(c, events).l2;
    } else {
      NoWorkerForOthers(c, events, k);
      assert forall i | 0 <= i < |ws| :: ws[i] in ws;
    }
  }

  lemma SameLookups<T>(m: map<Key, T>, n: map<Key, T>)
    requires forall k :: Lookup(m, k) == Lookup(n, k)
    ensures m == n
  {
    forall k
      ensures k in m <==> k in n
      ensures k in m ==> k in n && m[k] == n[k]
    {
      assert Lookup(m, k) == Lookup(n, k);
    }
  }

  lemma EntriesAtTheEnd(c: Call, events: seq<Event>, k: Key)
    requires WellFormed(c.index)
    requires Run(c, events).Some? && Run(c, events).value.main.Finished?
    ensures
      var s, f := Run(c, events).value, FaultsIn(c, events);
      var tagged := k in KeysUnder(c.index, c.tags);
      && Lookup(s.l1, k) == (if tagged && k !in f.l1 then None else Lookup(c.l1, k))
      && Lookup(s.l2, k) == (if tagged && k !in f.l2 then None else Lookup(c.l2, k))
  {
    ReachableStates(c, events);
    UniqueElements(KeysUnder(c.index, c.tags));
    DeletedAtTheEnd(c, events, k);
    assert CachesOk(c, Run(c, events).value, k);
  }

  lemma CachesAtTheEnd(c: Call, events: seq<Event>)
    requires WellFormed(c.index)
    requires Run(c, events).Some? && Run(c, events).value.main.Finished?
    ensures
      var s, f := Run(c, events).value, FaultsIn(c, events);
      var keys := KeySet(c.index, c.tags);
      s.l1 == c.l1 - (keys - f.l1) && s.l2 == c.l2 - (keys - f.l2)
  {
    var s, f := Run(c, events).value, FaultsIn(c, events);
    var keys := KeySet(c.index, c.tags);
    forall k
      ensures Lookup(s.l1, k) == Lookup(c.l1 - (keys - f.l1), k)
      ensures Lookup(s.l2, k) == Lookup(c.l2 - (keys - f.l2), k)
    {
      EntriesAtTheEnd(c, events, k);
    }
    SameLookups(s.l1, c.l1 - (keys - f.l1));
    SameLookups(s.l2, c.l2 - (keys - f.l2));
  }

  lemma IndexAtTheEnd(c: Call, events: seq<Event>)
    requires WellFormed(c.index)
    requires Run(c, events).Some? && Run(c, events).value.main.Finished?
    ensures
      var f := FaultsIn(c, events);
      Run(c, events).value.index == Invalidated(c.index, c.tags, f.l1 + f.l2)
  {
    var s, f := Run(c, events).value, FaultsIn(c, events);
    ReachableStates(c, events);
    UniqueElements(KeysUnder(c.index, c.tags));
    forall k
      ensures k in Hit(s.workers) <==> k in KeysUnder(c.index, c.tags) && k !in f.l1 && k !in f.l2
    {
      DeletedAtTheEnd(c, events, k);
    }
    assert Hit(s.workers) == KeySet(c.index, c.tags) - (f.l1 + f.l2);
  }

  /** Whatever the schedule, a finished call has handed each distinct key under the given tags to
      InvalidateKey exactly once, and its effect on both levels and the index is that of executing the
      invalidation in one step with the deletes failing that failed in the run. */
  lemma InvalidateByTagsEffect(c: Call, events: seq<Event>, now: int)
    requires WellFormed(c.index)
    requires Run(c, events).Some? && Run(c, events).value.main.Finished?
    ensures
      var s := Run(c, events).value;
      && Jobs.Data(s.l1, s.l2, s.index)
         == Jobs.Execute(Jobs.Data(c.l1, c.l2, c.index), Jobs.ForTags(c.tags), FaultsIn(c, events), now)
      && NoDup(s.calls) && (forall k :: k in s.calls <==> k in KeysUnder(c.index, c.tags))
      && s.mu == Free && s.slots == 0 && s.wg == 0
  {
    ReachableStates(c, events);
    AllHanded(c, Run(c, events).value);
    CachesAtTheEnd(c, events);
    IndexAtTheEnd(c, events);
    UniqueElements(KeysUnder(c.index, c.tags));
  }

  /** A delete of k on that level failed in the run. */
  predicate FailedOnL1(c: Call, events: seq<Event>, k: Key) {
    exists i | 0 <= i < |Keys(c)| :: Keys(c)[i] == k && DeleteL1(i, true) in events
  }

  predicate FailedOnL2(c: Call, events: seq<Event>, k: Key) {
    exists i | 0 <= i < |Keys(c)| :: Keys(c)[i] == k && DeleteL2(i, true) in events
  }

  lemma FaultsMean(c: Call, events: seq<Event>, k: Key)
    ensures k in FaultsIn(c, events).l1 <==> FailedOnL1(c, events, k)
    ensures k in FaultsIn(c, events).l2 <==> FailedOnL2(c, events, k)
  {
  }

  /** Key by key: a tagged key is gone from a level iff it was not there or no delete of it failed on
      that level in the run, and it has lost its other tags iff neither failed; an untagged key's entries
      are what they were, and so are its tags but for the given ones. */
  lemma EachKeyAtTheEnd(c: Call, events: seq<Event>, k: Key)
    requires WellFormed(c.index)
    requires Run(c, events).Some? && Run(c, events).value.main.Finished?
    ensures
      var s := Run(c, events).value;
      var tagged := exists t :: t in c.tags && HasTag(c.index, k, t);
      && Lookup(s.l1, k) == (if tagged && !FailedOnL1(c, events, k) then None else Lookup(c.l1, k))
      && Lookup(s.l2, k) == (if tagged && !FailedOnL2(c, events, k) then None else Lookup(c.l2, k))
      && forall t :: HasTag(s.index, k, t) <==>
           && HasTag(c.index, k, t) && t !in c.tags
           && (!tagged || FailedOnL1(c, events, k) || FailedOnL2(c, events, k))
  {
    FaultsMean(c, events, k);
    UnderSomeTag(c.index, c.tags);
    EntriesAtTheEnd(c, events, k);
    TagsAtTheEnd(c, events, k);
  }

  lemma TagsAtTheEnd(c: Call, events: seq<Event>, k: Key)
    requires WellFormed(c.index)
    requires Run(c, events).Some? && Run(c, events).value.main.Finished?
    ensures
      var f := FaultsIn(c, events);
      forall t :: HasTag(Run(c, events).value.index, k, t) <==>
        && HasTag(c.index, k, t) && t !in c.tags
        && (k in f.l1 || k in f.l2 || !exists t' :: t' in c.tags && HasTag(c.index, k, t'))
  {
    var f := FaultsIn(c, events);
    IndexAtTheEnd(c, events);
    InvalidationEffect(c.index, c.tags, f.l1 + f.l2);
  }

  /** With no delete errors every tagged key is gone from both levels and from the index. */
  lemma WithoutDeleteErrors(c: Call, events: seq<Event>, k: Key)
    requires WellFormed(c.index)
    requires Run(c, events).Some? && Run(c, events).value.main.Finished?
    requires forall e | e in events :: (e.DeleteL1? || e.DeleteL2?) ==> !e.fails
    requires exists t :: t in c.tags && HasTag(c.index, k, t)
    ensures
      var s := Run(c, events).value;
      k !in s.l1 && k !in s.l2 && forall t :: !HasTag(s.index, k, t)
  {
    EachKeyAtTheEnd(c, events, k);
    var s := Run(c, events).value;
    assert Lookup(s.l1, k) == None && Lookup(s.l2, k) == None;
  }
}
