/** Delayed invalidation: the job table, the ticks that run it, and what running a job does to the caches
    and the tag index (internal/cache/invalidator.go). */
module Jobs {
  import opened Entries
  import opened Tags
  import L2 = RedisCache

  type Id = string

  datatype Target =
    | ForKey(key: Key)
    | ForPattern(pattern: string, matches: set<Key>)   // and the keys it stands for
    | ForTags(tags: seq<Tag>)

  datatype Job = Job(target: Target, executeAt: int, active: bool)

  // ----- What running a job does -----

  /** What a job can change. */
  datatype Data = Data(l1: map<Key, Entry>, l2: map<Key, L2.Stored>, index: Index)

  const NO_DATA := Data(map[], map[], map[])

  /** The keys whose deletes fail, on each level. */
  datatype Faults = Faults(l1: set<Key>, l2: set<Key>)

  const NO_FAULTS := Faults({}, {})

  function Matched(l2: map<Key, L2.Stored>, matches: set<Key>, now: int): set<Key> {
    set k | k in l2 && k in matches && L2.Visible(l2[k], now)
  }

  function Execute(d: Data, target: Target, f: Faults, now: int): Data {
    match target
    case ForKey(k) =>
      if k == "" then d
      else
        Data(if k in f.l1 then d.l1 else d.l1 - {k},
             if k in f.l2 then d.l2 else d.l2 - {k},
             if k in f.l1 + f.l2 then d.index else RemoveKey(d.index, k))
    case ForPattern(pattern, matches) =>
      if pattern == "" then d else d.(l2 := d.l2 - (Matched(d.l2, matches, now) - f.l2))
    case ForTags(tags) =>
      var keys := KeySet(d.index, tags);
      Data(d.l1 - (keys - f.l1), d.l2 - (keys - f.l2), Invalidated(d.index, tags, f.l1 + f.l2))
  }

  lemma ExecuteKeepsForm(d: Data, target: Target, f: Faults, now: int)
    requires WellFormed(d.index)
    ensures WellFormed(Execute(d, target, f, now).index)
  {
    match target
    case ForKey(k) => RemovalRemoves(d.index, k);
    case ForPattern(_, _) =>
    case ForTags(tags) => InvalidationEffect(d.index, tags, f.l1 + f.l2);
  }

  /** Where a key is left by a job on it. */
  lemma KeyAfterExecute(d: Data, k: Key, f: Faults, now: int)
    requires WellFormed(d.index) && k != ""
    ensures
      var once := Execute(d, ForKey(k), f, now);
      && (k in once.l1 <==> k in d.l1 && k in f.l1)
      && (k in once.l2 <==> k in d.l2 && k in f.l2)
      && (forall t :: HasTag(once.index, k, t) <==> HasTag(d.index, k, t) && k in f.l1 + f.l2)
  {
    RemovalRemoves(d.index, k);
  }

  // ----- Running a job twice -----

  /** Known before a job runs with the faults f: running it again at the later instant, with the faults g
      and nothing in between, will find nothing to do. */
  ghost predicate Settles(d: Data, target: Target, f: Faults, g: Faults, later: int) {
    match target
    case ForKey(k) =>
      k == "" || (
        && (k in d.l1 && k in f.l1 ==> k in g.l1)
        && (k in d.l2 && k in f.l2 ==> k in g.l2)
        && (k in f.l1 + f.l2 && k !in g.l1 + g.l2 ==> forall t :: !HasTag(d.index, k, t)))
    case ForPattern(pattern, matches) =>
      pattern == "" || forall k | k in d.l2 && k in matches && k in f.l2 && k !in g.l2 :: !L2.Visible(d.l2[k], later)
    case ForTags(_) => true
  }

  lemma RemoveKeyNoChange(idx: Index, k: Key)
    requires WellFormed(idx)
    ensures RemoveKey(idx, k) == idx <==> forall t :: !HasTag(idx, k, t)
  {
    RemovalRemoves(idx, k);
    if forall t :: !HasTag(idx, k, t) {
      forall t | t in idx
        ensures DropFirst(idx[t], k) == idx[t]
      {
        assert !HasTag(idx, k, t);
        NothingToSplice(idx[t], k);
      }
    } else {
      var t :| HasTag(idx, k, t);
      assert !HasTag(RemoveKey(idx, k), k, t);
    }
  }

  lemma KeyJobTwice(d: Data, k: Key, f: Faults, g: Faults, now: int, later: int)
    requires WellFormed(d.index) && k != ""
    ensures
      var once := Execute(d, ForKey(k), f, now);
      Execute(once, ForKey(k), g, later) == once <==> Settles(d, ForKey(k), f, g, later)
  {
    var once := Execute(d, ForKey(k), f, now);
    ExecuteKeepsForm(d, ForKey(k), f, now);
    KeyAfterExecute(d, k, f, now);
    RemoveKeyNoChange(once.index, k);
    assert k !in once.l1 <==> once.l1 - {k} == once.l1;
    assert k !in once.l2 <==> once.l2 - {k} == once.l2;
  }

  lemma PatternJobTwice(d: Data, pattern: string, matches: set<Key>, f: Faults, g: Faults, now: int, later: int)
    requires pattern != "" && now <= later
    ensures
      var target := ForPattern(pattern, matches);
      var once := Execute(d, target, f, now);
      Execute(once, target, g, later) == once <==> Settles(d, target, f, g, later)
  {
    var target := ForPattern(pattern, matches);
    var once := Execute(d, target, f, now);
    var again := Matched(once.l2, matches, later) - g.l2;
    assert forall k :: k in again <==>
        k in d.l2 && k in matches && k in f.l2 && k !in g.l2 && L2.Visible(d.l2[k], later);
    if again == {} {
      assert once.l2 - again == once.l2;
    } else {
      var k :| k in again;
      assert k in once.l2 && k !in once.l2 - again;
      assert Execute(once, target, g, later).l2 == once.l2 - again;
    }
  }

  lemma TagJobTwice(d: Data, tags: seq<Tag>, f: Faults, g: Faults, now: int, later: int)
    requires WellFormed(d.index)
    ensures
      var once := Execute(d, ForTags(tags), f, now);
      Execute(once, ForTags(tags), g, later) == once
  {
    var once := Execute(d, ForTags(tags), f, now);
    InvalidationEffect(d.index, tags, f.l1 + f.l2);
    NoneUnderDroppedTags(once.index, tags);
    NothingTagged(once.index, tags, g.l1 + g.l2);
    assert KeySet(once.index, tags) == {};
  }

  lemma {:induction false} NoneUnderDroppedTags(idx: Index, tags: seq<Tag>)
    requires forall t | t in tags :: t !in idx
    ensures KeysUnder(idx, tags) == []
  {
    if tags != [] {
      assert tags[|tags| - 1] in tags;
      NoneUnderDroppedTags(idx, tags[..|tags| - 1]);
    }
  }

  /** Running a job again, with nothing in between, changes nothing: always, for a job on tags, even one
      whose deletes failed; for a job on a key, iff each delete that failed had nothing to delete or fails
      again and, if any failed and none fails again, the key had no tag; for a job on a pattern, iff no
      matching record whose delete failed and does not fail again is still visible. */
  lemma SecondExecutionIsIdle(d: Data, target: Target, f: Faults, g: Faults, now: int, later: int)
    requires WellFormed(d.index) && now <= later
    ensures
      var once := Execute(d, target, f, now);
      Execute(once, target, g, later) == once <==> Settles(d, target, f, g, later)
  {
    match target
    case ForKey(k) =>
      if k != "" {
        KeyJobTwice(d, k, f, g, now, later);
      }
    case ForPattern(pattern, matches) =>
      if pattern != "" {
        PatternJobTwice(d, pattern, matches, f, g, now, later);
      }
    case ForTags(tags) => TagJobTwice(d, tags, f, g, now, later);
  }

  // ----- The table, the ticks and the goroutines -----

  /** A tick between reading the clock and starting its goroutines: now is what it read, jobs what it
      found under the read lock. */
  datatype Tick = Reading(now: int) | Picked(now: int, jobs: map<Id, Job>) | Launched

  /** The goroutine that runs one job of one tick: before its invalidation, after it, and after it has
      removed the job from the table. */
  datatype Phase = Waiting | Ran | Left

  datatype Goroutine = Goroutine(id: Id, job: Job, startedAt: int, phase: Phase)

  /** Ticks and goroutines stay in their lists when they are done. */
  datatype State = State(
    clock: int, table: map<Id, Job>, ticks: seq<Tick>, goroutines: seq<Goroutine>,
    scheduled: map<Id, Job>, finished: set<Id>, cleared: set<Id>, data: Data)

  const START := State(0, map[], [], [], map[], {}, {}, NO_DATA)

  datatype Event =
    | Advance(to: int)
    | Schedule(id: Id, target: Target, delay: int)
    | TickBegins
    | TickPicks(i: nat)
    | TickStarts(i: nat)
    | Runs(n: nat, faults: Faults)   // the invalidation, successful or not
    | Leaves(n: nat)                 // and the removal of the job
    | ClearAll
    | Elsewhere(data: Data)          // any other call, with whatever effect on caches and index

  /** The arguments the three scheduling calls accept. */
  predicate Accepted(target: Target, delay: int) {
    delay >= 0 &&
    match target
    case ForKey(key) => key != ""
    case ForPattern(pattern, _) => pattern != ""
    case ForTags(tags) => tags != []
  }

  /** Job ids carry the nanosecond of their making; a run never makes the same one twice. */
  predicate Enabled(s: State, e: Event) {
    match e
    case Advance(to) => s.clock <= to
    case Schedule(id, _, _) => id !in s.scheduled
    case TickPicks(i) => i < |s.ticks| && s.ticks[i].Reading?
    case TickStarts(i) => i < |s.ticks| && s.ticks[i].Picked?
    case Runs(n, _) => n < |s.goroutines| && s.goroutines[n].phase == Waiting
    case Leaves(n) => n < |s.goroutines| && s.goroutines[n].phase == Ran
    case Elsewhere(data) => WellFormed(data.index)
    case _ => true
  }

  /** The jobs a tick that read the clock at now has to run. */
  function Due(table: map<Id, Job>, now: int): map<Id, Job> {
    map id | id in table && table[id].active && now > table[id].executeAt :: table[id]
  }

  ghost function Started(jobs: map<Id, Job>, at: int): seq<Goroutine> {
    if jobs == map[] then []
    else
      var id :| id in jobs;
      [Goroutine(id, jobs[id], at, Waiting)] + Started(jobs - {id}, at)
  }

  lemma {:induction false} EachJobOnce(jobs: map<Id, Job>, at: int)
    ensures forall x :: x in Started(jobs, at) <==> x.id in jobs && x == Goroutine(x.id, jobs[x.id], at, Waiting)
    ensures |Started(jobs, at)| == |jobs|
  {
    if jobs != map[] {
      var id :| id in jobs && Started(jobs, at) == [Goroutine(id, jobs[id], at, Waiting)] + Started(jobs - {id}, at);
      EachJobOnce(jobs - {id}, at);
    }
  }

  ghost function Next(s: State, e: Event): State
    requires Enabled(s, e)
  {
    match e
    case Advance(to) => s.(clock := to)
    case Schedule(id, target, delay) =>
      if !Accepted(target, delay) then s
      else
        var job := Job(target, s.clock + delay, true);
        s.(table := s.table[id := job], scheduled := s.scheduled[id := job])
    case TickBegins => s.(ticks := s.ticks + [Reading(s.clock)])
    case TickPicks(i) =>
      s.(ticks := s.ticks[i := Picked(s.ticks[i].now, Due(s.table, s.ticks[i].now))])
    case TickStarts(i) =>
      s.(ticks := s.ticks[i := Launched], goroutines := s.goroutines + Started(s.ticks[i].jobs, s.clock))
    case Runs(n, faults) =>
      s.(goroutines := s.goroutines[n := s.goroutines[n].(phase := Ran)],
         data := Execute(s.data, s.goroutines[n].job.target, faults, s.clock))
    case Leaves(n) =>
      var id := s.goroutines[n].id;
      s.(goroutines := s.goroutines[n := s.goroutines[n].(phase := Left)],
         table := s.table - {id}, finished := s.finished + {id})
    case ClearAll => s.(table := map[], cleared := s.cleared + s.table.Keys)
    case Elsewhere(data) => s.(data := data)
  }

  ghost function Run(events: seq<Event>): Option<State> {
    if events == [] then Some(START)
    else
      match Run(events[..|events| - 1])
      case None => None
      case Some(s) => if Enabled(s, events[|events| - 1]) then Some(Next(s, events[|events| - 1])) else None
  }

  lemma LastEvent(events: seq<Event>, e: Event)
    ensures Run(events + [e]).Some? <==> Run(events).Some? && Enabled(Run(events).value, e)
    ensures Run(events + [e]).Some? ==> Run(events + [e]).value == Next(Run(events).value, e)
  {
    assert (events + [e])[..|events|] == events;
  }

  // ----- The invariant -----

  predicate Scheduled(s: State, id: Id, job: Job) {
    id in s.scheduled && s.scheduled[id] == job && job.active
  }

  predicate TickOk(s: State, t: Tick) {
    && (!t.Launched? ==> t.now <= s.clock)
    && (t.Picked? ==> forall id | id in t.jobs :: Scheduled(s, id, t.jobs[id]) && t.jobs[id].executeAt < t.now)
  }

  predicate GoroutineOk(s: State, x: Goroutine) {
    Scheduled(s, x.id, x.job) && x.job.executeAt < x.startedAt <= s.clock
  }

  /** Some goroutine has run the job and left. */
  predicate Done(s: State, id: Id) {
    exists n | 0 <= n < |s.goroutines| :: s.goroutines[n].id == id && s.goroutines[n].phase == Left
  }

  predicate Inv(s: State) {
    && (forall id | id in s.table :: Scheduled(s, id, s.table[id]))
    && (forall i | 0 <= i < |s.ticks| :: TickOk(s, s.ticks[i]))
    && (forall n | 0 <= n < |s.goroutines| :: GoroutineOk(s, s.goroutines[n]))
    && (forall id | id in s.scheduled :: id in s.table || id in s.finished || id in s.cleared)
    && (forall id | id in s.finished :: Done(s, id))
    && s.cleared <= s.scheduled.Keys && s.finished <= s.scheduled.Keys && s.finished !! s.table.Keys
    && WellFormed(s.data.index)
  }

  lemma StillScheduled(s: State, e: Event)
    requires Enabled(s, e)
    ensures forall id, job | Scheduled(s, id, job) :: Scheduled(Next(s, e), id, job)
    ensures s.clock <= Next(s, e).clock
  {
  }

  lemma TicksKept(s: State, e: Event)
    requires Inv(s) && Enabled(s, e)
    ensures forall i | 0 <= i < |Next(s, e).ticks| :: TickOk(Next(s, e), Next(s, e).ticks[i])
  {
    StillScheduled(s, e);
    var s' := Next(s, e);
    forall i | 0 <= i < |s'.ticks|
      ensures TickOk(s', s'.ticks[i])
    {
      if i < |s.ticks| {
        assert TickOk(s, s.ticks[i]);
      }
    }
  }

  /** Goroutines keep their job and their place, and only move on. */
  predicate Grown(before: seq<Goroutine>, after: seq<Goroutine>) {
    && |before| <= |after|
    && forall n | 0 <= n < |before| ::
         && after[n].id == before[n].id && after[n].job == before[n].job && after[n].startedAt == before[n].startedAt
         && (before[n].phase == Left ==> after[n].phase == Left)
  }

  lemma GoroutinesGrow(s: State, e: Event)
    requires Enabled(s, e)
    ensures Grown(s.goroutines, Next(s, e).goroutines)
  {
  }

  lemma GoroutinesKept(s: State, e: Event)
    requires Inv(s) && Enabled(s, e)
    ensures forall n | 0 <= n < |Next(s, e).goroutines| :: GoroutineOk(Next(s, e), Next(s, e).goroutines[n])
  {
    StillScheduled(s, e);
    GoroutinesGrow(s, e);
    var s' := Next(s, e);
    if e.TickStarts? {
      EachJobOnce(s.ticks[e.i].jobs, s.clock);
      assert TickOk(s, s.ticks[e.i]);
    }
    forall n | 0 <= n < |s'.goroutines|
      ensures GoroutineOk(s', s'.goroutines[n])
    {
      if n < |s.goroutines| {
        assert GoroutineOk(s, s.goroutines[n]);
      } else {
        assert s'.goroutines[n] in Started(s.ticks[e.i].jobs, s.clock);
      }
    }
  }

  lemma DoneKept(s: State, e: Event)
    requires Inv(s) && Enabled(s, e)
    ensures forall id | id in Next(s, e).finished :: Done(Next(s, e), id)
  {
    GoroutinesGrow(s, e);
    var s' := Next(s, e);
    forall id | id in s'.finished
      ensures Done(s', id)
    {
      if id in s.finished {
        var n :| 0 <= n < |s.goroutines| && s.goroutines[n].id == id && s.goroutines[n].phase == Left;
        assert s'.goroutines[n].id == id && s'.goroutines[n].phase == Left;
      } else {
        assert s'.goroutines[e.n].id == id && s'.goroutines[e.n].phase == Left;
      }
    }
  }

  lemma InvKept(s: State, e: Event)
    requires Inv(s) && Enabled(s, e)
    ensures Inv(Next(s, e))
  {
    StillScheduled(s, e);
    TicksKept(s, e);
    GoroutinesKept(s, e);
    DoneKept(s, e);
    if e.Runs? {
      ExecuteKeepsForm(s.data, s.goroutines[e.n].job.target, e.faults, s.clock);
    }
  }

  lemma {:induction false} InvHolds(events: seq<Event>)
    requires Run(events).Some?
    ensures Inv(Run(events).value)
  {
    if events != [] {
      InvHolds(events[..|events| - 1]);
      InvKept(Run(events[..|events| - 1]).value, events[|events| - 1]);
    }
  }

  /** In every run, overlapping ticks included: no job starts at or before its time, and only jobs that
      were scheduled start, unchanged. A scheduled job that is not in the table any more was cleared, or
      a goroutine has run it and left. */
  lemma JobsRunLateAndLeaveDone(events: seq<Event>)
    requires Run(events).Some?
    ensures
      var s := Run(events).value;
      && (forall n | 0 <= n < |s.goroutines| ::
            var x := s.goroutines[n];
            x.id in s.scheduled && s.scheduled[x.id] == x.job && x.job.executeAt < x.startedAt <= s.clock)
      && (forall id | id in s.scheduled && id !in s.table :: id in s.cleared || Done(s, id))
  {
    InvHolds(events);
    var s := Run(events).value;
    forall n | 0 <= n < |s.goroutines|
      ensures GoroutineOk(s, s.goroutines[n])
    {
    }
  }

  lemma NewOnesWait(s: State, e: Event)
    requires Enabled(s, e)
    ensures forall n | |s.goroutines| <= n < |Next(s, e).goroutines| :: Next(s, e).goroutines[n].phase == Waiting
  {
    if e.TickStarts? {
      var more := Started(s.ticks[e.i].jobs, s.clock);
      EachJobOnce(s.ticks[e.i].jobs, s.clock);
      forall n | |s.goroutines| <= n < |Next(s, e).goroutines|
        ensures Next(s, e).goroutines[n].phase == Waiting
      {
        assert more[n - |s.goroutines|] in more;
      }
    }
  }

  /** And what has left has run before. */
  lemma {:induction false} RunsBeforeItLeaves(events: seq<Event>, n: nat)
    requires Run(events).Some? && n < |Run(events).value.goroutines|
    requires Run(events).value.goroutines[n].phase != Waiting
    ensures exists f :: Runs(n, f) in events
    ensures Run(events).value.goroutines[n].phase == Left ==> Leaves(n) in events
  {
    var before, e := events[..|events| - 1], events[|events| - 1];
    assert events == before + [e];
    var s := Run(before).value;
    NewOnesWait(s, e);
    if s.goroutines[n].phase != Waiting {
      RunsBeforeItLeaves(before, n);
      var f :| Runs(n, f) in before;
      assert Runs(n, f) in events;
    } else {
      assert e.Runs? && e.n == n;
      assert Runs(n, e.faults) in events;
    }
  }

  // ----- A stretch of a run -----

  /** No event of the stretch touches the caches or the index. */
  predicate Quiet(between: seq<Event>) {
    forall e | e in between :: !e.Runs? && !e.Elsewhere?
  }

  lemma {:induction false} Stretch(events: seq<Event>, between: seq<Event>)
    requires Run(events + between).Some?
    ensures Run(events).Some?
    ensures
      var s, t := Run(events).value, Run(events + between).value;
      && s.clock <= t.clock
      && Grown(s.goroutines, t.goroutines)
      && (Quiet(between) ==> t.data == s.data)
  {
    if between == [] {
      assert events + between == events;
    } else {
      var init, e := between[..|between| - 1], between[|between| - 1];
      assert events + between == (events + init) + [e];
      assert between == init + [e];
      LastEvent(events + init, e);
      Stretch(events, init);
      StillScheduled(Run(events + init).value, e);
      GoroutinesGrow(Run(events + init).value, e);
    }
  }

  lemma {:induction false} PickIsKept(events: seq<Event>, i: nat, between: seq<Event>)
    requires Run(events + [TickPicks(i)] + between).Some?
    ensures Run(events).Some? && Enabled(Run(events).value, TickPicks(i))
    ensures
      var s, t := Run(events).value, Run(events + [TickPicks(i)] + between).value;
      i < |t.ticks| && t.ticks[i] in {Picked(s.ticks[i].now, Due(s.table, s.ticks[i].now)), Launched}
  {
    LastEvent(events, TickPicks(i));
    if between == [] {
      assert events + [TickPicks(i)] + between == events + [TickPicks(i)];
    } else {
      var init, e := between[..|between| - 1], between[|between| - 1];
      assert events + [TickPicks(i)] + between == (events + [TickPicks(i)] + init) + [e];
      LastEvent(events + [TickPicks(i)] + init, e);
      PickIsKept(events, i, init);
    }
  }

  /** Over every run from the pick of a tick to its start, whatever happens in between: the tick starts
      exactly the active jobs that were in the table and past their time when it picked, each once. */
  lemma TickStartsAllDue(events: seq<Event>, i: nat, between: seq<Event>)
    requires Run(events + [TickPicks(i)] + between + [TickStarts(i)]).Some?
    ensures Run(events).Some? && Run(events + [TickPicks(i)] + between).Some? && i < |Run(events).value.ticks|
    ensures
      var s := Run(events).value;
      var t := Run(events + [TickPicks(i)] + between).value;
      var u := Run(events + [TickPicks(i)] + between + [TickStarts(i)]).value;
      && !s.ticks[i].Launched?
      && t.goroutines <= u.goroutines
      && (forall x :: x in u.goroutines[|t.goroutines|..] <==>
            && x.id in s.table && s.table[x.id].active && s.table[x.id].executeAt < s.ticks[i].now
            && x == Goroutine(x.id, s.table[x.id], t.clock, Waiting))
      && |u.goroutines| - |t.goroutines| == |Due(s.table, s.ticks[i].now)|
  {
    var there := events + [TickPicks(i)] + between;
    LastEvent(there, TickStarts(i));
    PickIsKept(events, i, between);
    var s, t := Run(events).value, Run(there).value;
    var due := Due(s.table, s.ticks[i].now);
    EachJobOnce(due, t.clock);
    var u := Next(t, TickStarts(i));
    assert u.goroutines == t.goroutines + Started(due, t.clock);
    assert u.goroutines[|t.goroutines|..] == Started(due, t.clock);
  }

  /** The key of a key job is where the deletes that failed left it, and under its tags iff any did. */
  ghost predicate KeyLeft(before: Data, after: Data, k: Key, f: Faults) {
    && (k in after.l1 <==> k in before.l1 && k in f.l1)
    && (k in after.l2 <==> k in before.l2 && k in f.l2)
    && (forall t :: HasTag(after.index, k, t) <==> HasTag(before.index, k, t) && k in f.l1 + f.l2)
  }

  lemma JobRan(events: seq<Event>, n: nat, f: Faults)
    requires Run(events + [Runs(n, f)]).Some?
    ensures Run(events).Some? && n < |Run(events).value.goroutines|
    ensures
      var s, t := Run(events).value, Run(events + [Runs(n, f)]).value;
      var target := s.goroutines[n].job.target;
      && t.goroutines[n].id == s.goroutines[n].id
      && t.data == Execute(s.data, target, f, s.clock)
      && (target.ForKey? && target.key != "" ==> KeyLeft(s.data, t.data, target.key, f))
  {
    LastEvent(events, Runs(n, f));
    InvHolds(events);
    var s := Run(events).value;
    var target := s.goroutines[n].job.target;
    if target.ForKey? && target.key != "" {
      KeyAfterExecute(s.data, target.key, f, s.clock);
    }
  }

  // ----- From the call to the start -----

  lemma ScheduleStep(s: State, id: Id, target: Target, delay: int)
    requires Enabled(s, Schedule(id, target, delay))
    ensures
      var t, job := Next(s, Schedule(id, target, delay)), Job(target, s.clock + delay, true);
      if Accepted(target, delay) then t == s.(table := s.table[id := job], scheduled := s.scheduled[id := job])
      else t == s
  {
  }

  /** A call that is accepted puts one active job into the table, to run its delay after the call, and
      changes nothing else; one that is not changes nothing. */
  lemma ScheduleAddsItsJob(events: seq<Event>, id: Id, target: Target, delay: int)
    requires Run(events + [Schedule(id, target, delay)]).Some?
    ensures Run(events).Some? && id !in Run(events).value.scheduled
    ensures
      var s, t := Run(events).value, Run(events + [Schedule(id, target, delay)]).value;
      var job := Job(target, s.clock + delay, true);
      if delay >= 0 && target != ForKey("") && target != ForTags([]) && !(target.ForPattern? && target.pattern == "")
      then t == s.(table := s.table[id := job], scheduled := s.scheduled[id := job])
      else t == s
  {
    LastEvent(events, Schedule(id, target, delay));
    ScheduleStep(Run(events).value, id, target, delay);
  }

  lemma ClearEmptiesTheTable(events: seq<Event>)
    requires Run(events).Some?
    ensures Run(events + [ClearAll]).Some? && Run(events + [ClearAll]).value.table == map[]
    ensures Run(events + [ClearAll]).value.goroutines == Run(events).value.goroutines
  {
    LastEvent(events, ClearAll);
  }

  /** A tick works with the clock as it was when it began. */
  lemma TickReadsTheClock(events: seq<Event>)
    requires Run(events).Some?
    ensures Run(events + [TickBegins]).Some?
    ensures
      var s := Run(events).value;
      Run(events + [TickBegins]).value == s.(ticks := s.ticks + [Reading(s.clock)])
  {
    LastEvent(events, TickBegins);
  }

  /** Behind every job there is its call, and the job is for that call's instant plus its delay. */
  lemma {:induction false} BehindAJob(events: seq<Event>, id: Id) returns (i: nat, delay: int)
    requires Run(events).Some? && id in Run(events).value.scheduled
    ensures i < |events| && Run(events[..i]).Some?
    ensures
      var job := Run(events).value.scheduled[id];
      && events[i] == Schedule(id, job.target, delay) && Accepted(job.target, delay)
      && job.executeAt == Run(events[..i]).value.clock + delay
  {
    var n := |events| - 1;
    var before, e := events[..n], events[n];
    if id in Run(before).value.scheduled {
      i, delay := BehindAJob(before, id);
      assert events[..i] == before[..i];
    } else {
      i, delay := n, e.delay;
    }
  }

  /** No job starts before its delay has passed since the call that scheduled it. */
  lemma JobsWaitForTheirDelay(events: seq<Event>, n: nat) returns (i: nat, delay: int)
    requires Run(events).Some? && n < |Run(events).value.goroutines|
    ensures i < |events| && Run(events[..i]).Some?
    ensures
      var x := Run(events).value.goroutines[n];
      && events[i] == Schedule(x.id, x.job.target, delay)
      && Run(events[..i]).value.clock + delay < x.startedAt <= Run(events).value.clock
  {
    InvHolds(events);
    var s := Run(events).value;
    assert GoroutineOk(s, s.goroutines[n]);
    i, delay := BehindAJob(events, s.goroutines[n].id);
  }

  /** The job is scheduled and no clearing has taken it. */
  predicate Kept(s: State, id: Id, job: Job) {
    id in s.scheduled && s.scheduled[id] == job && id !in s.cleared
  }

  lemma KeptByStep(s: State, e: Event, id: Id, job: Job)
    requires Kept(s, id, job) && Enabled(s, e) && e != ClearAll
    ensures Kept(Next(s, e), id, job)
  {
  }

  lemma {:induction false} StaysScheduled(events: seq<Event>, between: seq<Event>, id: Id, job: Job)
    requires Run(events + between).Some? && ClearAll !in between
    requires Run(events).Some? ==> Kept(Run(events).value, id, job)
    ensures Kept(Run(events + between).value, id, job)
  {
    if between == [] {
      assert events + between == events;
    } else {
      var init, e := between[..|between| - 1], between[|between| - 1];
      assert events + between == (events + init) + [e];
      assert between == init + [e];
      LastEvent(events + init, e);
      StaysScheduled(events, init, id, job);
      KeptByStep(Run(events + init).value, e, id, job);
    }
  }

  /** An accepted job stays in the table until a goroutine that ran it leaves or the jobs are cleared. */
  lemma JobStaysUntilDone(events: seq<Event>, id: Id, target: Target, delay: int, between: seq<Event>)
    requires Accepted(target, delay) && ClearAll !in between
    requires Run(events + [Schedule(id, target, delay)] + between).Some?
    ensures Run(events).Some?
    ensures
      var t := Run(events + [Schedule(id, target, delay)] + between).value;
      && (id in t.table <==> id !in t.finished)
      && (id in t.table ==> t.table[id] == Job(target, Run(events).value.clock + delay, true))
  {
    var called := events + [Schedule(id, target, delay)];
    Stretch(called, between);
    ScheduleAddsItsJob(events, id, target, delay);
    InvHolds(events);
    StaysScheduled(called, between, id, Job(target, Run(events).value.clock + delay, true));
    InvHolds(called + between);
  }

  /** And the first tick after its time that picks while it is there starts it. */
  lemma DueJobIsStarted(
    events: seq<Event>, id: Id, target: Target, delay: int, between: seq<Event>, i: nat, after: seq<Event>)
    requires Accepted(target, delay) && ClearAll !in between
    requires Run(events + [Schedule(id, target, delay)] + between + [TickPicks(i)] + after + [TickStarts(i)]).Some?
    ensures Run(events).Some? && Run(events + [Schedule(id, target, delay)] + between).Some?
    ensures Run(events + [Schedule(id, target, delay)] + between + [TickPicks(i)] + after).Some?
    ensures
      var s := Run(events + [Schedule(id, target, delay)] + between).value;
      var t := Run(events + [Schedule(id, target, delay)] + between + [TickPicks(i)] + after).value;
      var u := Run(events + [Schedule(id, target, delay)] + between + [TickPicks(i)] + after + [TickStarts(i)]).value;
      && i < |s.ticks| && !s.ticks[i].Launched? && |t.goroutines| <= |u.goroutines|
      && (id !in s.finished && Run(events).value.clock + delay < s.ticks[i].now ==>
            exists n ::
              && |t.goroutines| <= n < |u.goroutines|
              && u.goroutines[n].id == id && u.goroutines[n].job.target == target)
  {
    var there := events + [Schedule(id, target, delay)] + between;
    TickStartsAllDue(there, i, after);
    JobStaysUntilDone(events, id, target, delay, between);
    var s := Run(there).value;
    var t := Run(there + [TickPicks(i)] + after).value;
    var u := Run(there + [TickPicks(i)] + after + [TickStarts(i)]).value;
    if id !in s.finished && Run(events).value.clock + delay < s.ticks[i].now {
      var x := Goroutine(id, s.table[id], t.clock, Waiting);
      assert x in u.goroutines[|t.goroutines|..];
      var k :| 0 <= k < |u.goroutines| - |t.goroutines| && u.goroutines[|t.goroutines|..][k] == x;
      assert u.goroutines[|t.goroutines| + k] == x;
    }
  }

  lemma LeaveStep(t: State, n: nat)
    requires Enabled(t, Leaves(n))
    ensures
      var u := Next(t, Leaves(n));
      t.goroutines[n].id !in u.table && t.goroutines[n].id in u.finished && u.data == t.data
  {
  }

  /** From the run of a job to its removal. */
  lemma RanAndLeft(ran: seq<Event>, n: nat, between: seq<Event>, id: Id, data: Data)
    requires Run(ran + between + [Leaves(n)]).Some?
    requires Run(ran).Some? ==>
               && n < |Run(ran).value.goroutines| && Run(ran).value.goroutines[n].id == id
               && Run(ran).value.data == data
    ensures
      var u := Run(ran + between + [Leaves(n)]).value;
      id !in u.table && id in u.finished && (Quiet(between) ==> u.data == data)
  {
    LastEvent(ran + between, Leaves(n));
    Stretch(ran, between);
    LeaveStep(Run(ran + between).value, n);
  }

  /** Whatever a run of a job did, its goroutine then takes the job off the table; and if nothing touched
      the caches meanwhile, a key is left exactly where a delete of it failed, and under its tags iff
      any did. */
  lemma JobLeavesWhateverItDid(events: seq<Event>, n: nat, f: Faults, between: seq<Event>)
    requires Run(events + [Runs(n, f)] + between + [Leaves(n)]).Some?
    ensures Run(events).Some? && n < |Run(events).value.goroutines|
    ensures
      var s, u := Run(events).value, Run(events + [Runs(n, f)] + between + [Leaves(n)]).value;
      var x := s.goroutines[n];
      && x.id !in u.table && x.id in u.finished
      && (Quiet(between) ==> u.data == Execute(s.data, x.job.target, f, s.clock))
      && (Quiet(between) && x.job.target.ForKey? && x.job.target.key != "" ==>
            KeyLeft(s.data, u.data, x.job.target.key, f))
  {
    var ran := events + [Runs(n, f)];
    LastEvent(ran + between, Leaves(n));
    Stretch(ran, between);
    JobRan(events, n, f);
    RanAndLeft(ran, n, between, Run(ran).value.goroutines[n].id, Run(ran).value.data);
  }

  /** Over every run: when two goroutines of overlapping ticks run one job, with whatever faults and
      nothing touching the caches in between, the second changes nothing iff what was known before the
      first settles it. */
  lemma SecondRunIsIdle(events: seq<Event>, n: nat, f: Faults, between: seq<Event>, m: nat, g: Faults)
    requires Run(events + [Runs(n, f)] + between + [Runs(m, g)]).Some? && Quiet(between)
    ensures Run(events).Some? && n < |Run(events).value.goroutines|
    ensures Run(events + [Runs(n, f)] + between).Some?
    ensures
      var s := Run(events).value;
      var t := Run(events + [Runs(n, f)] + between).value;
      var u := Run(events + [Runs(n, f)] + between + [Runs(m, g)]).value;
      && m < |t.goroutines|
      && (t.goroutines[m].id == s.goroutines[n].id ==>
            (u.data == t.data <==> Settles(s.data, s.goroutines[n].job.target, f, g, t.clock)))
  {
    var ran := events + [Runs(n, f)];
    LastEvent(ran + between, Runs(m, g));
    Stretch(ran, between);
    LastEvent(events, Runs(n, f));
    InvHolds(events);
    InvHolds(ran + between);
    var s, t := Run(events).value, Run(ran + between).value;
    if t.goroutines[m].id == s.goroutines[n].id {
      assert GoroutineOk(t, t.goroutines[m]) && GoroutineOk(t, t.goroutines[n]);
      SecondExecutionIsIdle(s.data, s.goroutines[n].job.target, f, g, s.clock, t.clock);
    }
  }

  // ----- A failed job is not tried again -----

  lemma Do(events: seq<Event>, s: State, e: Event) returns (events': seq<Event>, s': State)
    requires Run(events) == Some(s) && Enabled(s, e)
    ensures s' == Next(s, e) && events' == events + [e] && Run(events') == Some(s')
  {
    events', s' := events + [e], Next(s, e);
    LastEvent(events, e);
  }

  /** A job on k, which L1 holds, is due, and one tick has picked it. */
  lemma JobPicked(id: Id, k: Key, e: Entry) returns (events: seq<Event>, s: State)
    requires k != ""
    ensures Run(events) == Some(s) && s.data == Data(map[k := e], map[], map[]) && s.clock == 1
    ensures s.table == map[id := Job(ForKey(k), 0, true)] && s.goroutines == []
    ensures s.ticks == [Picked(1, map[id := Job(ForKey(k), 0, true)])]
  {
    events, s := [], START;
    events, s := Do(events, s, Elsewhere(Data(map[k := e], map[], map[])));
    events, s := Do(events, s, Schedule(id, ForKey(k), 0));
    events, s := Do(events, s, Advance(1));
    events, s := Do(events, s, TickBegins);
    assert Due(s.table, 1) == map[id := Job(ForKey(k), 0, true)];
    events, s := Do(events, s, TickPicks(0));
  }

  lemma OneStarted(id: Id, job: Job, at: int)
    ensures Started(map[id := job], at) == [Goroutine(id, job, at, Waiting)]
  {
    EachJobOnce(map[id := job], at);
    var goroutines := Started(map[id := job], at);
    assert |goroutines| == |map[id := job]| == 1;
    assert goroutines[0] in goroutines;
  }

  /** A run after which a job on k is in no table although its delete failed and L1 still holds k. */
  lemma FailedJobIsForgotten(id: Id, k: Key, e: Entry) returns (events: seq<Event>)
    requires k != ""
    ensures Run(events).Some?
    ensures
      var s := Run(events).value;
      id in s.finished && s.table == map[] && k in s.data.l1
  {
    var s: State;
    events, s := JobPicked(id, k, e);
    OneStarted(id, Job(ForKey(k), 0, true), 1);
    events, s := Do(events, s, TickStarts(0));
    events, s := Do(events, s, Runs(0, Faults({k}, {})));
    assert k in s.data.l1 && s.table.Keys == {id};
    events, s := Do(events, s, Leaves(0));
    assert s.table.Keys == {};
  }

  /** Two ticks that overlap have both started the job. */
  lemma StartedTwice(id: Id, k: Key, e: Entry) returns (events: seq<Event>, s: State)
    requires k != ""
    ensures Run(events) == Some(s) && s.data == Data(map[k := e], map[], map[])
    ensures
      var goroutine := Goroutine(id, Job(ForKey(k), 0, true), 1, Waiting);
      s.goroutines == [goroutine, goroutine]
  {
    var job := Job(ForKey(k), 0, true);
    events, s := JobPicked(id, k, e);
    OneStarted(id, job, 1);
    events, s := Do(events, s, TickBegins);
    assert Due(s.table, 1) == map[id := job];
    events, s := Do(events, s, TickPicks(1));
    events, s := Do(events, s, TickStarts(0));
    events, s := Do(events, s, TickStarts(1));
  }

  /** A run in which two ticks start the same job, the first goroutine fails to delete its key, and the
      second, which runs after it with nothing in between, still deletes it. */
  lemma SecondRunCanMatter(id: Id, k: Key, e: Entry) returns (events: seq<Event>)
    requires k != ""
    ensures Run(events).Some? && Run(events + [Runs(0, Faults({k}, {}))]).Some?
    ensures Run(events + [Runs(0, Faults({k}, {})), Runs(1, NO_FAULTS)]).Some?
    ensures
      var s := Run(events + [Runs(0, Faults({k}, {}))]).value;
      var t := Run(events + [Runs(0, Faults({k}, {})), Runs(1, NO_FAULTS)]).value;
      && |s.goroutines| == 2 && s.goroutines[0].id == s.goroutines[1].id
      && k in s.data.l1 && k !in t.data.l1
  {
    var s: State;
    events, s := StartedTwice(id, k, e);
    var first, s' := Do(events, s, Runs(0, Faults({k}, {})));
    var second, s'' := Do(first, s', Runs(1, NO_FAULTS));
    assert second == events + [Runs(0, Faults({k}, {})), Runs(1, NO_FAULTS)];
  }
}
