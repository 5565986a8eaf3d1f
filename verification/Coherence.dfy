/** Every interleaving of write-through Sets and Deletes, Gets with their detached fills, warming,
    evictions and the passing of time (internal/cache/manager.go, warmer.go). Backends do not fail,
    a level's Get is one step, and the writes of one key do not overlap. Each copy carries the number
    of the write its value came from; a proof needs it, the cache does not look at it. */
module Coherence {
  import opened Entries
  import L1 = BigCache
  import L2 = RedisCache

  /** delta, if given, bounds how long a fill may take from its L2 read to its L1 write. */
  datatype Config = Config(defaultTTL: int, delta: Option<nat>)

  datatype Write = Store(value: Value, ttl: int) | Remove

  /** The writes of one key in the order they begin; lastHalf is when the latest of the two halves
      ran (when the write began, if none has). */
  datatype WriteRecord = WriteRecord(op: Write, lastHalf: int)

  datatype Origin = Written | Filled(readStep: nat, landStep: nat)
  datatype Copy1 = Copy1(entry: Entry, write: nat, origin: Origin)
  datatype Copy2 = Copy2(stored: L2.Stored, write: nat)
  datatype Fill = Fill(value: Value, write: nat, readStep: nat, readAt: int)
  datatype Phase = Idle | Busy(l1Done: bool, l2Done: bool)

  /** All there is about one key. l1Step and l2Step are the steps at which the latest L1 half and the
      latest L2 half of a write of this key ran. */
  datatype Slot = Slot(
    l1: Option<Copy1>, l2: Option<Copy2>, fills: seq<Fill>,
    writes: seq<WriteRecord>, phase: Phase, l1Step: nat, l2Step: nat)

  const UNTOUCHED := Slot(None, None, [], [], Idle, 0, 0)

  datatype World = World(now: int, step: nat, slots: map<Key, Slot>)

  const START := World(0, 1, map[])

  datatype Action =
    | Begin(op: Write)          // Set or Delete is called
    | HalfL1                    // its L1 goroutine runs
    | HalfL2                    // its L2 goroutine runs
    | Finish                    // both replies are in, the call returns
    | ReadL1                    // a Get looks into L1
    | ReadL2(thenFill: bool)    // a Get or the warmer looks into L2
    | Land(i: nat)              // a fill writes L1
    | EvictL1
    | EvictL2                   // also InvalidatePattern, which touches L2 only

  datatype Event = Tick(to: int) | On(key: Key, action: Action)

  function SlotOf(w: World, key: Key): Slot {
    if key in w.slots then w.slots[key] else UNTOUCHED
  }

  // ----- One step -----

  predicate Can(cfg: Config, s: Slot, a: Action, now: int) {
    match a
    case Begin(op) => s.phase.Idle? && (op.Store? ==> op.value != Nil)
    case HalfL1 => s.phase.Busy? && !s.phase.l1Done
    case HalfL2 => s.phase.Busy? && !s.phase.l2Done
    case Finish => s.phase == Busy(true, true)
    case Land(i) => i < |s.fills| && (cfg.delta.Some? ==> now <= s.fills[i].readAt + cfg.delta.value)
    case _ => true
  }

  function EffectiveTTL(cfg: Config, ttl: int): int {
    if ttl == 0 then cfg.defaultTTL else ttl
  }

  function Effective(cfg: Config, op: Write): Write {
    match op
    case Store(value, ttl) => Store(value, EffectiveTTL(cfg, ttl))
    case Remove => Remove
  }

  /** The history with the current write's latest half moved to now. */
  function Marked(writes: seq<WriteRecord>, now: int): seq<WriteRecord>
    requires writes != []
  {
    writes[..|writes| - 1] + [writes[|writes| - 1].(lastHalf := now)]
  }

  function Act(cfg: Config, key: Key, s: Slot, a: Action, now: int, step: nat): Slot
    requires Can(cfg, s, a, now)
    requires s.phase.Busy? ==> s.writes != []
  {
    var n := |s.writes|;
    match a
    case Begin(op) =>
      s.(writes := s.writes + [WriteRecord(Effective(cfg, op), now)], phase := Busy(false, false))
    case HalfL1 =>
      var copy := match s.writes[n - 1].op
                  case Store(value, ttl) => Some(Copy1(NewEntry(key, value, ttl, 1, now), n, Written))
                  case Remove => None;
      s.(l1 := copy, writes := Marked(s.writes, now), phase := s.phase.(l1Done := true), l1Step := step)
    case HalfL2 =>
      var copy := match s.writes[n - 1].op
                  case Store(value, ttl) => Some(Copy2(L2.NewStored(key, value, ttl, 1, now), n))
                  case Remove => None;
      s.(l2 := copy, writes := Marked(s.writes, now), phase := s.phase.(l2Done := true), l2Step := step)
    case Finish => s.(phase := Idle)
    case ReadL1 =>
      (match s.l1
       case None => s
       case Some(c) =>
         match L1.ReadSlot(Some(c.entry), now)
         case Some(e) => s.(l1 := Some(c.(entry := e)))
         case None => s.(l1 := None))
    case ReadL2(thenFill) =>
      (match s.l2
       case None => s
       case Some(c) =>
         if L2.Visible(c.stored, now) then
           s.(l2 := Some(c.(stored := L2.WriteBack(c.stored.entry, now, now))),
              fills := if thenFill then s.fills + [Fill(c.stored.entry.value, c.write, step, now)] else s.fills)
         else s)
    case Land(i) =>
      var f := s.fills[i];
      s.(l1 := Some(Copy1(NewEntry(key, f.value, cfg.defaultTTL, 1, now), f.write, Filled(f.readStep, step))),
         fills := s.fills[..i] + s.fills[i + 1..])
    case EvictL1 => s.(l1 := None)
    case EvictL2 => s.(l2 := None)
  }

  predicate Sound(w: World) {
    forall k | k in w.slots :: w.slots[k].phase.Busy? ==> w.slots[k].writes != []
  }

  predicate Enabled(cfg: Config, w: World, e: Event) {
    match e
    case Tick(to) => w.now <= to
    case On(key, a) => Can(cfg, SlotOf(w, key), a, w.now)
  }

  function Next(cfg: Config, w: World, e: Event): World
    requires Sound(w) && Enabled(cfg, w, e)
  {
    match e
    case Tick(to) => w.(now := to, step := w.step + 1)
    case On(key, a) =>
      World(w.now, w.step + 1, w.slots[key := Act(cfg, key, SlotOf(w, key), a, w.now, w.step)])
  }

  // ----- Whole runs -----

  /** The world a run leads to, if every event of it was possible. */
  function Run(cfg: Config, events: seq<Event>): Option<World> {
    if events == [] then Some(START)
    else
      match Run(cfg, events[..|events| - 1])
      case None => None
      case Some(w) =>
        var e := events[|events| - 1];
        if Sound(w) && Enabled(cfg, w, e) then Some(Next(cfg, w, e)) else None
  }

  lemma Extend(cfg: Config, events: seq<Event>, w: World, e: Event)
    requires Run(cfg, events) == Some(w) && Sound(w) && Enabled(cfg, w, e)
    ensures Run(cfg, events + [e]) == Some(Next(cfg, w, e))
  {
    assert (events + [e])[..|events|] == events;
  }

  // ----- The invariant -----

  /** How many writes have reached L1 and L2. */
  function Reached1(s: Slot): int {
    if s.phase.Busy? && !s.phase.l1Done then |s.writes| - 1 else |s.writes|
  }

  function Reached2(s: Slot): int {
    if s.phase.Busy? && !s.phase.l2Done then |s.writes| - 1 else |s.writes|
  }

  predicate From(writes: seq<WriteRecord>, write: nat, value: Value) {
    && 1 <= write <= |writes|
    && writes[write - 1].op.Store?
    && writes[write - 1].op.value == value
  }

  /** Every value around was supplied by the write it is numbered with. */
  predicate Derived(s: Slot) {
    && (s.phase.Busy? ==> s.writes != [])
    && (forall i | 0 <= i < |s.writes| :: s.writes[i].op.Store? ==> s.writes[i].op.value != Nil)
    && (s.l2.Some? ==> From(s.writes, s.l2.value.write, s.l2.value.stored.entry.value))
    && (forall f | f in s.fills :: From(s.writes, f.write, f.value))
    && (s.l1.Some? ==> From(s.writes, s.l1.value.write, s.l1.value.entry.value))
  }

  /** A copy taken from L2 at readStep is of the newest write L2 has seen iff that write's L2 half
      came before. */
  predicate ReadInOrder(s: Slot, write: nat, readStep: nat) {
    if write == Reached2(s) then s.l2Step < readStep else write < Reached2(s) && readStep < s.l2Step
  }

  predicate Ordered(s: Slot, step: nat) {
    && s.l1Step < step && s.l2Step < step
    && (s.l2.Some? ==> s.l2.value.write == Reached2(s))
    && (forall f | f in s.fills :: ReadInOrder(s, f.write, f.readStep) && f.readStep < step)
    && (s.l1.Some? ==>
          match s.l1.value.origin
          case Written => s.l1.value.write == Reached1(s)
          case Filled(readStep, landStep) =>
            && ReadInOrder(s, s.l1.value.write, readStep)
            && readStep < landStep
            && s.l1Step < landStep < step)
  }

  /** The instant the copies of a write are due to be gone from L2. */
  function Due(r: WriteRecord): int
    requires r.op.Store?
  {
    r.lastHalf + r.op.ttl
  }

  predicate Timed2(c: Copy2, r: WriteRecord)
    requires r.op.Store?
  {
    var e := c.stored.entry;
    r.op.ttl > 0 ==>
      && e.ttl == r.op.ttl
      && e.createdAt <= r.lastHalf
      && c.stored.deadline == Some(e.createdAt + e.ttl)
  }

  predicate Timed1(cfg: Config, c: Copy1, r: WriteRecord)
    requires r.op.Store?
  {
    r.op.ttl > 0 ==>
      match c.origin
      case Written => c.entry.ttl == r.op.ttl && c.entry.createdAt <= r.lastHalf
      case Filled(_, _) =>
        && c.entry.ttl == cfg.defaultTTL
        && (cfg.delta.Some? ==> c.entry.createdAt < Due(r) + cfg.delta.value)
  }

  predicate TimedFill(f: Fill, r: WriteRecord)
    requires r.op.Store?
  {
    r.op.ttl > 0 ==> f.readAt < Due(r)
  }

  predicate Timed(cfg: Config, s: Slot, now: int)
    requires Derived(s)
  {
    && (forall i | 0 <= i < |s.writes| :: s.writes[i].lastHalf <= now)
    && (s.l2.Some? ==> Timed2(s.l2.value, s.writes[s.l2.value.write - 1]))
    && (forall f | f in s.fills :: TimedFill(f, s.writes[f.write - 1]))
    && (s.l1.Some? ==> Timed1(cfg, s.l1.value, s.writes[s.l1.value.write - 1]))
  }

  predicate Good(cfg: Config, s: Slot, now: int, step: nat) {
    Derived(s) && Ordered(s, step) && Timed(cfg, s, now)
  }

  predicate Inv(cfg: Config, w: World) {
    w.step >= 1 && forall k | k in w.slots :: Good(cfg, w.slots[k], w.now, w.step)
  }

  lemma DerivedKeptByWrites(cfg: Config, key: Key, s: Slot, a: Action, now: int, step: nat)
    requires Derived(s) && Can(cfg, s, a, now)
    requires a.Begin? || a.HalfL1? || a.HalfL2?
    ensures Derived(Act(cfg, key, s, a, now, step))
  {
    var t := Act(cfg, key, s, a, now, step);
    assert forall i | 0 <= i < |s.writes| :: t.writes[i].op == s.writes[i].op;
    forall f | f in t.fills
      ensures From(t.writes, f.write, f.value)
    {
      assert From(s.writes, f.write, f.value);
    }
  }

  lemma DerivedKept(cfg: Config, key: Key, s: Slot, a: Action, now: int, step: nat)
    requires Derived(s) && Can(cfg, s, a, now)
    ensures Derived(Act(cfg, key, s, a, now, step))
  {
    if a.Begin? || a.HalfL1? || a.HalfL2? {
      DerivedKeptByWrites(cfg, key, s, a, now, step);
    } else if a.Land? {
      assert s.fills[a.i] in s.fills;
    }
  }

  lemma OrderedKeptByReads(cfg: Config, key: Key, s: Slot, a: Action, now: int, step: nat)
    requires Derived(s) && Ordered(s, step) && Can(cfg, s, a, now)
    requires a.ReadL1? || a.ReadL2? || a.EvictL1? || a.EvictL2?
    ensures Ordered(Act(cfg, key, s, a, now, step), step + 1)
  {
  }

  lemma OrderedKeptByFill(cfg: Config, key: Key, s: Slot, i: nat, now: int, step: nat)
    requires Derived(s) && Ordered(s, step) && Can(cfg, s, Land(i), now)
    ensures Ordered(Act(cfg, key, s, Land(i), now, step), step + 1)
  {
    assert s.fills[i] in s.fills;
  }

  lemma OrderedKeptByCalls(cfg: Config, key: Key, s: Slot, a: Action, now: int, step: nat)
    requires Derived(s) && Ordered(s, step) && Can(cfg, s, a, now)
    requires a.Begin? || a.Finish?
    ensures Ordered(Act(cfg, key, s, a, now, step), step + 1)
  {
    assert Reached1(Act(cfg, key, s, a, now, step)) == Reached1(s);
    assert Reached2(Act(cfg, key, s, a, now, step)) == Reached2(s);
  }

  lemma OrderedKeptByHalfL1(cfg: Config, key: Key, s: Slot, now: int, step: nat)
    requires Derived(s) && Ordered(s, step) && Can(cfg, s, HalfL1, now)
    ensures Ordered(Act(cfg, key, s, HalfL1, now, step), step + 1)
  {
    assert Reached2(Act(cfg, key, s, HalfL1, now, step)) == Reached2(s);
  }

  lemma OrderedKeptByHalfL2(cfg: Config, key: Key, s: Slot, now: int, step: nat)
    requires Derived(s) && Ordered(s, step) && Can(cfg, s, HalfL2, now)
    ensures Ordered(Act(cfg, key, s, HalfL2, now, step), step + 1)
  {
    assert Reached1(Act(cfg, key, s, HalfL2, now, step)) == Reached1(s);
  }

  lemma OrderedKept(cfg: Config, key: Key, s: Slot, a: Action, now: int, step: nat)
    requires Derived(s) && Ordered(s, step) && Can(cfg, s, a, now)
    ensures Ordered(Act(cfg, key, s, a, now, step), step + 1)
  {
    match a
    case Land(i) => OrderedKeptByFill(cfg, key, s, i, now, step);
    case HalfL1 => OrderedKeptByHalfL1(cfg, key, s, now, step);
    case HalfL2 => OrderedKeptByHalfL2(cfg, key, s, now, step);
    case Begin(_) => OrderedKeptByCalls(cfg, key, s, a, now, step);
    case Finish => OrderedKeptByCalls(cfg, key, s, a, now, step);
    case _ => OrderedKeptByReads(cfg, key, s, a, now, step);
  }

  /** Moving the latest half of a write later leaves the bounds of its copies true. */
  lemma TimedGrows(cfg: Config, s: Slot, writes: seq<WriteRecord>, now: int)
    requires Derived(s) && Timed(cfg, s, now) && |s.writes| <= |writes|
    requires forall i | 0 <= i < |s.writes| ::
               writes[i].op == s.writes[i].op && s.writes[i].lastHalf <= writes[i].lastHalf
    ensures s.l2.Some? ==> Timed2(s.l2.value, writes[s.l2.value.write - 1])
    ensures forall f | f in s.fills :: TimedFill(f, writes[f.write - 1])
    ensures s.l1.Some? ==> Timed1(cfg, s.l1.value, writes[s.l1.value.write - 1])
  {
    forall f | f in s.fills
      ensures TimedFill(f, writes[f.write - 1])
    {
      assert TimedFill(f, s.writes[f.write - 1]);
    }
  }

  lemma TimedKeptByReads(cfg: Config, key: Key, s: Slot, a: Action, now: int, step: nat)
    requires Derived(s) && Timed(cfg, s, now) && Can(cfg, s, a, now)
    requires a.ReadL1? || a.EvictL1? || a.EvictL2? || a.Finish?
    ensures Derived(Act(cfg, key, s, a, now, step)) && Timed(cfg, Act(cfg, key, s, a, now, step), now)
  {
  }

  lemma TimedKeptByReadL2(cfg: Config, key: Key, s: Slot, thenFill: bool, now: int, step: nat)
    requires Derived(s) && Timed(cfg, s, now) && Can(cfg, s, ReadL2(thenFill), now)
    ensures Derived(Act(cfg, key, s, ReadL2(thenFill), now, step))
    ensures Timed(cfg, Act(cfg, key, s, ReadL2(thenFill), now, step), now)
  {
  }

  lemma TimedKeptByFill(cfg: Config, key: Key, s: Slot, i: nat, now: int, step: nat)
    requires Derived(s) && Timed(cfg, s, now) && Can(cfg, s, Land(i), now)
    ensures Derived(Act(cfg, key, s, Land(i), now, step)) && Timed(cfg, Act(cfg, key, s, Land(i), now, step), now)
  {
    assert s.fills[i] in s.fills;
  }

  lemma TimedKeptByBegin(cfg: Config, key: Key, s: Slot, op: Write, now: int, step: nat)
    requires Derived(s) && Timed(cfg, s, now) && Can(cfg, s, Begin(op), now)
    ensures Derived(Act(cfg, key, s, Begin(op), now, step))
    ensures Timed(cfg, Act(cfg, key, s, Begin(op), now, step), now)
  {
    DerivedKeptByWrites(cfg, key, s, Begin(op), now, step);
    TimedGrows(cfg, s, Act(cfg, key, s, Begin(op), now, step).writes, now);
  }

  lemma TimedKeptByHalves(cfg: Config, key: Key, s: Slot, a: Action, now: int, step: nat)
    requires Derived(s) && Timed(cfg, s, now) && Can(cfg, s, a, now)
    requires a.HalfL1? || a.HalfL2?
    ensures Derived(Act(cfg, key, s, a, now, step)) && Timed(cfg, Act(cfg, key, s, a, now, step), now)
  {
    DerivedKeptByWrites(cfg, key, s, a, now, step);
    var t := Act(cfg, key, s, a, now, step);
    assert t.writes == Marked(s.writes, now) && t.fills == s.fills;
    TimedGrows(cfg, s, t.writes, now);
  }

  lemma TimedKept(cfg: Config, key: Key, s: Slot, a: Action, now: int, step: nat)
    requires Derived(s) && Timed(cfg, s, now) && Can(cfg, s, a, now)
    ensures Derived(Act(cfg, key, s, a, now, step))
    ensures Timed(cfg, Act(cfg, key, s, a, now, step), now)
  {
    if a.Land? {
      TimedKeptByFill(cfg, key, s, a.i, now, step);
    } else if a.Begin? {
      TimedKeptByBegin(cfg, key, s, a.op, now, step);
    } else if a.HalfL1? || a.HalfL2? {
      TimedKeptByHalves(cfg, key, s, a, now, step);
    } else if a.ReadL2? {
      TimedKeptByReadL2(cfg, key, s, a.thenFill, now, step);
    } else {
      TimedKeptByReads(cfg, key, s, a, now, step);
    }
  }

  lemma {:induction false} InvHolds(cfg: Config, events: seq<Event>)
    requires Run(cfg, events).Some?
    ensures Inv(cfg, Run(cfg, events).value)
  {
    if events != [] {
      var before, e := events[..|events| - 1], events[|events| - 1];
      InvHolds(cfg, before);
      var w := Run(cfg, before).value;
      if e.On? {
        var s := SlotOf(w, e.key);
        assert Good(cfg, s, w.now, w.step);
        DerivedKept(cfg, e.key, s, e.action, w.now, w.step);
        OrderedKept(cfg, e.key, s, e.action, w.now, w.step);
        TimedKept(cfg, e.key, s, e.action, w.now, w.step);
      }
    }
  }

  // ----- Where stale copies come from -----

  /** The steps a slot remembers are events of the run: step number i is events[i - 1]. The latest half
      on each level is remembered, */
  predicate HalvesTraced(events: seq<Event>, key: Key, s: Slot) {
    && s.l1Step <= |events| && s.l2Step <= |events|
    && (s.l1Step > 0 ==> events[s.l1Step - 1] == On(key, HalfL1))
    && (s.l2Step > 0 ==> events[s.l2Step - 1] == On(key, HalfL2))
    && (forall i | s.l1Step <= i < |events| :: events[i] != On(key, HalfL1))
    && (forall i | s.l2Step <= i < |events| :: events[i] != On(key, HalfL2))
  }

  /** and so are the L2 read of every fill and the landing of the one L1 holds. */
  predicate FillsTraced(events: seq<Event>, key: Key, s: Slot) {
    && (forall f | f in s.fills :: 0 < f.readStep <= |events| && events[f.readStep - 1] == On(key, ReadL2(true)))
    && (s.l1.Some? && s.l1.value.origin.Filled? ==>
          var o := s.l1.value.origin;
          && 0 < o.readStep < o.landStep <= |events|
          && events[o.readStep - 1] == On(key, ReadL2(true))
          && events[o.landStep - 1].On? && events[o.landStep - 1].key == key && events[o.landStep - 1].action.Land?)
  }

  /** An event that leaves the slot as it is. */
  lemma OtherEventTraced(before: seq<Event>, e: Event, key: Key, s: Slot)
    requires HalvesTraced(before, key, s) && FillsTraced(before, key, s)
    requires e != On(key, HalfL1) && e != On(key, HalfL2)
    ensures HalvesTraced(before + [e], key, s) && FillsTraced(before + [e], key, s)
  {
  }

  lemma HalvesStayTraced(cfg: Config, before: seq<Event>, key: Key, s: Slot, a: Action, now: int, step: nat)
    requires HalvesTraced(before, key, s) && Derived(s) && Can(cfg, s, a, now) && step == |before| + 1
    ensures HalvesTraced(before + [On(key, a)], key, Act(cfg, key, s, a, now, step))
  {
    var t := Act(cfg, key, s, a, now, step);
    assert t.l1Step == if a.HalfL1? then step else s.l1Step;
    assert t.l2Step == if a.HalfL2? then step else s.l2Step;
  }

  lemma FillsStayTraced(cfg: Config, before: seq<Event>, key: Key, s: Slot, a: Action, now: int, step: nat)
    requires FillsTraced(before, key, s) && Derived(s) && Can(cfg, s, a, now) && step == |before| + 1
    ensures FillsTraced(before + [On(key, a)], key, Act(cfg, key, s, a, now, step))
  {
    if a.Land? {
      assert s.fills[a.i] in s.fills;
    }
  }

  lemma {:induction false} StepsAreEvents(cfg: Config, events: seq<Event>, key: Key)
    requires Run(cfg, events).Some?
    ensures Run(cfg, events).value.step == |events| + 1
    ensures HalvesTraced(events, key, SlotOf(Run(cfg, events).value, key))
    ensures FillsTraced(events, key, SlotOf(Run(cfg, events).value, key))
  {
    if events != [] {
      var before, e := events[..|events| - 1], events[|events| - 1];
      StepsAreEvents(cfg, before, key);
      var w := Run(cfg, before).value;
      assert events == before + [e];
      OneStepTraced(cfg, before, w, e, key);
    }
  }

  lemma OneStepTraced(cfg: Config, before: seq<Event>, w: World, e: Event, key: Key)
    requires Run(cfg, before) == Some(w) && Sound(w) && Enabled(cfg, w, e) && w.step == |before| + 1
    requires HalvesTraced(before, key, SlotOf(w, key)) && FillsTraced(before, key, SlotOf(w, key))
    ensures HalvesTraced(before + [e], key, SlotOf(Next(cfg, w, e), key))
    ensures FillsTraced(before + [e], key, SlotOf(Next(cfg, w, e), key))
  {
    if e.On? && e.key == key {
      SlotIsGood(cfg, before, key);
      HalvesStayTraced(cfg, before, key, SlotOf(w, key), e.action, w.now, w.step);
      FillsStayTraced(cfg, before, key, SlotOf(w, key), e.action, w.now, w.step);
    } else {
      OtherEventTraced(before, e, key, SlotOf(w, key));
    }
  }

  /** The copy in L1 was put there by a fill that read L2 before the last write's L2 half and landed
      after its L1 half. */
  predicate LateFill(s: Slot) {
    && s.l1.Some? && s.l1.value.origin.Filled?
    && s.l1.value.origin.readStep < s.l2Step
    && s.l1Step < s.l1.value.origin.landStep
  }

  /** No write of the key has reached one level and not the other. */
  predicate NoHalfDone(s: Slot) {
    s.phase.Idle? || s.phase.l1Done == s.phase.l2Done
  }

  /** How many writes have reached both levels, when none is half done. A Set or Delete that has begun
      but whose halves have not run does not count; one whose halves have run does, returned or not. */
  function Completed(s: Slot): int {
    Reached1(s)
  }

  /** The value is that of the last completed write, which then was no Delete. */
  predicate IsLastWrite(s: Slot, value: Value) {
    var n := Completed(s);
    n >= 1 && s.writes[n - 1].op.Store? && s.writes[n - 1].op.value == value
  }

  /** Whenever no write of a key is half done, L2 holds the last completed write or nothing (nothing,
      after a Delete), and the copy in L1 is of an earlier write iff it came by a late fill. Otherwise L1,
      too, holds the last completed write or nothing. */
  lemma StaleIffLateFill(cfg: Config, events: seq<Event>, key: Key)
    requires Run(cfg, events).Some?
    requires NoHalfDone(SlotOf(Run(cfg, events).value, key))
    ensures
      var s := SlotOf(Run(cfg, events).value, key);
      && (s.l2.Some? ==> IsLastWrite(s, s.l2.value.stored.entry.value))
      && (s.l1.Some? ==> (s.l1.value.write != Completed(s) <==> LateFill(s)))
      && (s.l1.Some? && !LateFill(s) ==> IsLastWrite(s, s.l1.value.entry.value))
      && (s.l1.Some? ==> From(s.writes, s.l1.value.write, s.l1.value.entry.value))
  {
    SlotIsGood(cfg, events, key);
    StaleSlot(SlotOf(Run(cfg, events).value, key), Run(cfg, events).value.step);
  }

  lemma SlotIsGood(cfg: Config, events: seq<Event>, key: Key)
    requires Run(cfg, events).Some?
    ensures var w := Run(cfg, events).value; Good(cfg, SlotOf(w, key), w.now, w.step)
  {
    InvHolds(cfg, events);
  }

  lemma StaleSlot(s: Slot, step: nat)
    requires Derived(s) && Ordered(s, step) && NoHalfDone(s)
    ensures s.l2.Some? ==> IsLastWrite(s, s.l2.value.stored.entry.value)
    ensures s.l1.Some? ==> (s.l1.value.write != Completed(s) <==> LateFill(s))
    ensures s.l1.Some? && !LateFill(s) ==> IsLastWrite(s, s.l1.value.entry.value)
    ensures s.l1.Some? ==> From(s.writes, s.l1.value.write, s.l1.value.entry.value)
  {
  }

  /** The same, read off the log of the run: behind a stale copy there are an L2 read, the last
      write's L2 half after it, and a fill of L1 after that write's L1 half. */
  lemma StaleOnlyByThreeEvents(cfg: Config, events: seq<Event>, key: Key) returns (read: nat, half2: nat, land: nat)
    requires Run(cfg, events).Some?
    requires
      var s := SlotOf(Run(cfg, events).value, key);
      NoHalfDone(s) && s.l1.Some? && !IsLastWrite(s, s.l1.value.entry.value)
    ensures read < land < |events| && read < half2 < |events|
    ensures events[read] == On(key, ReadL2(true))
    ensures events[land].On? && events[land].key == key && events[land].action.Land?
    ensures events[half2] == On(key, HalfL2) && forall i | half2 < i < |events| :: events[i] != On(key, HalfL2)
    ensures forall i | land <= i < |events| :: events[i] != On(key, HalfL1)
  {
    StaleIffLateFill(cfg, events, key);
    StepsAreEvents(cfg, events, key);
    var s := SlotOf(Run(cfg, events).value, key);
    read, half2, land := s.l1.value.origin.readStep - 1, s.l2Step - 1, s.l1.value.origin.landStep - 1;
  }

  /** A value is set, L1 drops it, and a Get reads it from L2: a fill is on its way. */
  lemma FillOnItsWay(key: Key, v: Value, ttl: int, cfg: Config) returns (events: seq<Event>, w: World)
    requires v != Nil && ttl > 0
    ensures Run(cfg, events) == Some(w) && w.now == 0 && w.step == 7
    ensures
      var s := SlotOf(w, key);
      && s.l1 == None && s.l2.Some? && s.fills == [Fill(v, 1, 6, 0)]
      && s.writes == [WriteRecord(Store(v, ttl), 0)]
      && s.phase == Idle && s.l1Step == 2 && s.l2Step == 3
  {
    w := START;
    events := [];
    events, w := Do(cfg, events, w, On(key, Begin(Store(v, ttl))));
    events, w := Do(cfg, events, w, On(key, HalfL1));
    events, w := Do(cfg, events, w, On(key, HalfL2));
    events, w := Do(cfg, events, w, On(key, Finish));
    events, w := Do(cfg, events, w, On(key, EvictL1));
    events, w := Do(cfg, events, w, On(key, ReadL2(true)));
  }

  /** Late fills do happen: a Get misses L1 and reads L2, a Set completes, the fill lands. */
  lemma LateFillHappens(key: Key, v: Value, v': Value, ttl: int, cfg: Config) returns (events: seq<Event>)
    requires v != Nil && v' != Nil && v != v' && ttl > 0
    ensures Run(cfg, events).Some?
    ensures
      var s := SlotOf(Run(cfg, events).value, key);
      s.phase.Idle? && s.l1.Some? && LateFill(s) && s.l1.value.entry.value == v && IsLastWrite(s, v')
  {
    var w: World;
    events, w := FillOnItsWay(key, v, ttl, cfg);
    events, w := Do(cfg, events, w, On(key, Begin(Store(v', ttl))));
    events, w := Do(cfg, events, w, On(key, HalfL1));
    events, w := Do(cfg, events, w, On(key, HalfL2));
    events, w := Do(cfg, events, w, On(key, Finish));
    events, w := Do(cfg, events, w, On(key, Land(0)));
  }

  /** One more event of a run under construction. */
  lemma Do(cfg: Config, events: seq<Event>, w: World, e: Event) returns (events': seq<Event>, w': World)
    requires Run(cfg, events) == Some(w) && Enabled(cfg, w, e)
    ensures Sound(w) && w' == Next(cfg, w, e)
    ensures events' == events + [e] && Run(cfg, events') == Some(w')
  {
    InvHolds(cfg, events);
    events', w' := events + [e], Next(cfg, w, e);
    Extend(cfg, events, w, e);
  }

  // ----- How long a copy can survive -----

  /** A level would answer with its copy now. */
  predicate Answers1(s: Slot, now: int) {
    s.l1.Some? && L1.Readable(s.l1.value.entry, now)
  }

  predicate Answers2(s: Slot, now: int) {
    s.l2.Some? && L2.Visible(s.l2.value.stored, now)
  }

  /** With fills that land within delta of their L2 read, no copy of a write with a positive TTL is
      answered at or after lastHalf + ttl + delta + DefaultTTL, by L2 not even at lastHalf + ttl, after
      any number of reads, fills and warmings. */
  lemma StalenessBound(cfg: Config, events: seq<Event>, key: Key)
    requires cfg.delta.Some? && cfg.defaultTTL > 0
    requires Run(cfg, events).Some?
    ensures
      var w := Run(cfg, events).value;
      var s := SlotOf(w, key);
      && (Answers2(s, w.now) ==>
            && 1 <= s.l2.value.write <= |s.writes|
            && var r := s.writes[s.l2.value.write - 1];
            && r.op.Store? && s.l2.value.stored.entry.value == r.op.value
            && (r.op.ttl > 0 ==> w.now < r.lastHalf + r.op.ttl))
      && (Answers1(s, w.now) ==>
            && 1 <= s.l1.value.write <= |s.writes|
            && var r := s.writes[s.l1.value.write - 1];
            && r.op.Store? && s.l1.value.entry.value == r.op.value
            && (r.op.ttl > 0 ==> w.now < r.lastHalf + r.op.ttl + cfg.delta.value + cfg.defaultTTL))
  {
    SlotIsGood(cfg, events, key);
    BoundedSlot(cfg, SlotOf(Run(cfg, events).value, key), Run(cfg, events).value.now);
  }

  lemma BoundedSlot(cfg: Config, s: Slot, now: int)
    requires cfg.delta.Some? && cfg.defaultTTL > 0
    requires Derived(s) && Timed(cfg, s, now)
    ensures Answers2(s, now) ==>
              var r := s.writes[s.l2.value.write - 1];
              r.op.ttl > 0 ==> now < r.lastHalf + r.op.ttl
    ensures Answers1(s, now) ==>
              var r := s.writes[s.l1.value.write - 1];
              r.op.ttl > 0 ==> now < r.lastHalf + r.op.ttl + cfg.delta.value + cfg.defaultTTL
  {
  }

  /** A value is set at instant 0, L1 drops it, and just before its TTL is over L2 is read for a fill. */
  lemma ReadAtTheLastMoment(key: Key, v: Value, ttl: int, cfg: Config) returns (events: seq<Event>, w: World)
    requires v != Nil && ttl > 0
    ensures Run(cfg, events) == Some(w) && w.now == ttl - 1
    ensures
      var s := SlotOf(w, key);
      s.writes == [WriteRecord(Store(v, ttl), 0)] && s.fills == [Fill(v, 1, 6, ttl - 1)] && s.phase.Busy?
  {
    w := START;
    events := [];
    events, w := Do(cfg, events, w, On(key, Begin(Store(v, ttl))));
    events, w := Do(cfg, events, w, On(key, HalfL1));
    events, w := Do(cfg, events, w, On(key, HalfL2));
    events, w := Do(cfg, events, w, On(key, EvictL1));
    events, w := Do(cfg, events, w, Tick(ttl - 1));
    events, w := Do(cfg, events, w, On(key, ReadL2(true)));
  }

  /** The bound is the best possible: a run on which L1 still answers one nanosecond before it. */
  lemma BoundIsReached(key: Key, v: Value, ttl: int, delta: nat, defaultTTL: int) returns (events: seq<Event>)
    requires v != Nil && ttl > 0 && defaultTTL > 0
    ensures Run(Config(defaultTTL, Some(delta)), events).Some?
    ensures
      var w := Run(Config(defaultTTL, Some(delta)), events).value;
      var s := SlotOf(w, key);
      && Answers1(s, w.now) && s.l1.value.write == 1
      && |s.writes| == 1 && s.writes[0] == WriteRecord(Store(v, ttl), 0)
      && w.now == s.writes[0].lastHalf + ttl + delta + defaultTTL - 1
  {
    var cfg := Config(defaultTTL, Some(delta));
    var w: World;
    events, w := ReadAtTheLastMoment(key, v, ttl, cfg);
    events, w := Do(cfg, events, w, Tick(ttl - 1 + delta));
    events, w := Do(cfg, events, w, On(key, Land(0)));
    events, w := Do(cfg, events, w, Tick(ttl - 1 + delta + defaultTTL));
  }

  // ----- What a completed half leaves there to be read -----

  /** The write is under way and has not reached the level. */
  predicate Pending1(s: Slot, op: Write) {
    s.phase.Busy? && !s.phase.l1Done && s.writes != [] && s.writes[|s.writes| - 1].op == op
  }

  predicate Pending2(s: Slot, op: Write) {
    s.phase.Busy? && !s.phase.l2Done && s.writes != [] && s.writes[|s.writes| - 1].op == op
  }

  /** L1 has the entry made at the given instant, unless its time has passed. */
  predicate Lives1(s: Slot, value: Value, ttl: int, at: int, now: int) {
    && (s.l1.Some? ==> var e := s.l1.value.entry; e.value == value && e.ttl == ttl && e.createdAt == at)
    && (s.l1.Some? || (ttl > 0 && at + ttl < now))
  }

  /** L2 has the record made at the given instant. */
  predicate Lives2(s: Slot, value: Value, ttl: int, at: int) {
    s.l2.Some? &&
    var r := s.l2.value.stored;
    && r.entry.value == value && r.entry.ttl == ttl && r.entry.createdAt == at
    && r.deadline == if ttl > 0 then Some(at + ttl) else None
  }

  predicate Overwrites1(a: Action) { a.HalfL1? || a.Land? || a.EvictL1? }

  predicate Overwrites2(a: Action) { a.HalfL2? || a.EvictL2? }

  /** No event overwrites or evicts the key's copy in L1. */
  predicate Leaves1(since: seq<Event>, key: Key) {
    forall e | e in since :: !(e.On? && e.key == key && Overwrites1(e.action))
  }

  predicate Leaves2(since: seq<Event>, key: Key) {
    forall e | e in since :: !(e.On? && e.key == key && Overwrites2(e.action))
  }

  lemma PendingKept(cfg: Config, key: Key, s: Slot, a: Action, now: int, step: nat, op: Write)
    requires Can(cfg, s, a, now) && (s.phase.Busy? ==> s.writes != [])
    ensures Pending1(s, op) && !a.HalfL1? ==> Pending1(Act(cfg, key, s, a, now, step), op)
    ensures Pending2(s, op) && !a.HalfL2? ==> Pending2(Act(cfg, key, s, a, now, step), op)
  {
  }

  lemma HalfWrites(cfg: Config, key: Key, s: Slot, now: int, step: nat, op: Write)
    ensures Pending1(s, op) ==>
              match op
              case Store(value, ttl) => Lives1(Act(cfg, key, s, HalfL1, now, step), value, ttl, now, now)
              case Remove => Act(cfg, key, s, HalfL1, now, step).l1 == None
    ensures Pending2(s, op) ==>
              match op
              case Store(value, ttl) => Lives2(Act(cfg, key, s, HalfL2, now, step), value, ttl, now)
              case Remove => Act(cfg, key, s, HalfL2, now, step).l2 == None
  {
  }

  lemma Lives1Kept(
    cfg: Config, key: Key, s: Slot, a: Action, now: int, step: nat, value: Value, ttl: int, at: int)
    requires Can(cfg, s, a, now) && (s.phase.Busy? ==> s.writes != []) && !Overwrites1(a)
    requires Lives1(s, value, ttl, at, now)
    ensures Lives1(Act(cfg, key, s, a, now, step), value, ttl, at, now)
  {
  }

  lemma Lives2Kept(
    cfg: Config, key: Key, s: Slot, a: Action, now: int, step: nat, value: Value, ttl: int, at: int)
    requires Can(cfg, s, a, now) && (s.phase.Busy? ==> s.writes != []) && !Overwrites2(a) && at <= now
    requires Lives2(s, value, ttl, at)
    ensures Lives2(Act(cfg, key, s, a, now, step), value, ttl, at)
  {
  }

  lemma GoneKept(cfg: Config, key: Key, s: Slot, a: Action, now: int, step: nat)
    requires Can(cfg, s, a, now) && (s.phase.Busy? ==> s.writes != [])
    ensures s.l1 == None && !Overwrites1(a) ==> Act(cfg, key, s, a, now, step).l1 == None
    ensures s.l2 == None && !Overwrites2(a) ==> Act(cfg, key, s, a, now, step).l2 == None
  {
  }

  lemma LastEvent(cfg: Config, events: seq<Event>, e: Event)
    requires Run(cfg, events + [e]).Some?
    ensures Run(cfg, events).Some?
    ensures
      var w := Run(cfg, events).value;
      Sound(w) && Enabled(cfg, w, e) && Run(cfg, events + [e]).value == Next(cfg, w, e)
  {
    assert (events + [e])[..|events|] == events;
  }

  /** What an event does to one key's slot, and to the clock. */
  function SlotAfter(cfg: Config, w: World, e: Event, key: Key): Slot
    requires Sound(w) && Enabled(cfg, w, e)
  {
    if e.On? && e.key == key then Act(cfg, key, SlotOf(w, key), e.action, w.now, w.step) else SlotOf(w, key)
  }

  lemma OneSlotAfter(cfg: Config, w: World, e: Event, key: Key)
    requires Sound(w) && Enabled(cfg, w, e)
    ensures SlotOf(Next(cfg, w, e), key) == SlotAfter(cfg, w, e, key)
    ensures w.now <= Next(cfg, w, e).now && (e.On? ==> Next(cfg, w, e).now == w.now)
    ensures SlotOf(w, key).phase.Busy? ==> SlotOf(w, key).writes != []
  {
  }

  lemma {:induction false} PendingStays(cfg: Config, events: seq<Event>, since: seq<Event>, key: Key, op: Write)
    requires Run(cfg, events + since).Some?
    ensures Run(cfg, events).Some?
    ensures
      var s, t := SlotOf(Run(cfg, events).value, key), SlotOf(Run(cfg, events + since).value, key);
      && (Pending1(s, op) && On(key, HalfL1) !in since ==> Pending1(t, op))
      && (Pending2(s, op) && On(key, HalfL2) !in since ==> Pending2(t, op))
  {
    if since == [] {
      assert events + since == events;
    } else {
      var init, e := since[..|since| - 1], since[|since| - 1];
      assert events + since == (events + init) + [e];
      assert since == init + [e];
      LastEvent(cfg, events + init, e);
      PendingStays(cfg, events, init, key, op);
      var w := Run(cfg, events + init).value;
      OneSlotAfter(cfg, w, e, key);
      if e.On? && e.key == key {
        PendingKept(cfg, key, SlotOf(w, key), e.action, w.now, w.step, op);
      }
    }
  }

  lemma {:induction false} Lives1Stays(
    cfg: Config, events: seq<Event>, since: seq<Event>, key: Key, value: Value, ttl: int, at: int)
    requires Run(cfg, events + since).Some? && Leaves1(since, key)
    requires Run(cfg, events).Some? ==>
               var w := Run(cfg, events).value; Lives1(SlotOf(w, key), value, ttl, at, w.now)
    ensures var w := Run(cfg, events + since).value; Lives1(SlotOf(w, key), value, ttl, at, w.now)
  {
    if since == [] {
      assert events + since == events;
    } else {
      var init, e := since[..|since| - 1], since[|since| - 1];
      assert events + since == (events + init) + [e];
      assert since == init + [e];
      LastEvent(cfg, events + init, e);
      Lives1Stays(cfg, events, init, key, value, ttl, at);
      var w := Run(cfg, events + init).value;
      OneSlotAfter(cfg, w, e, key);
      if e.On? && e.key == key {
        Lives1Kept(cfg, key, SlotOf(w, key), e.action, w.now, w.step, value, ttl, at);
      }
    }
  }

  lemma {:induction false} Lives2Stays(
    cfg: Config, events: seq<Event>, since: seq<Event>, key: Key, value: Value, ttl: int, at: int)
    requires Run(cfg, events + since).Some? && Leaves2(since, key)
    requires Run(cfg, events).Some? ==>
               var w := Run(cfg, events).value; Lives2(SlotOf(w, key), value, ttl, at) && at <= w.now
    ensures var w := Run(cfg, events + since).value; Lives2(SlotOf(w, key), value, ttl, at) && at <= w.now
  {
    if since == [] {
      assert events + since == events;
    } else {
      var init, e := since[..|since| - 1], since[|since| - 1];
      assert events + since == (events + init) + [e];
      assert since == init + [e];
      LastEvent(cfg, events + init, e);
      Lives2Stays(cfg, events, init, key, value, ttl, at);
      var w := Run(cfg, events + init).value;
      OneSlotAfter(cfg, w, e, key);
      if e.On? && e.key == key {
        Lives2Kept(cfg, key, SlotOf(w, key), e.action, w.now, w.step, value, ttl, at);
      }
    }
  }

  lemma {:induction false} GoneStays(cfg: Config, events: seq<Event>, since: seq<Event>, key: Key)
    requires Run(cfg, events + since).Some?
    ensures Run(cfg, events).Some?
    ensures
      var s, t := SlotOf(Run(cfg, events).value, key), SlotOf(Run(cfg, events + since).value, key);
      && (s.l1 == None && Leaves1(since, key) ==> t.l1 == None)
      && (s.l2 == None && Leaves2(since, key) ==> t.l2 == None)
  {
    if since == [] {
      assert events + since == events;
    } else {
      var init, e := since[..|since| - 1], since[|since| - 1];
      assert events + since == (events + init) + [e];
      assert since == init + [e];
      LastEvent(cfg, events + init, e);
      GoneStays(cfg, events, init, key);
      var w := Run(cfg, events + init).value;
      OneSlotAfter(cfg, w, e, key);
      if e.On? && e.key == key {
        GoneKept(cfg, key, SlotOf(w, key), e.action, w.now, w.step);
      }
    }
  }

  lemma BegunIsPending(cfg: Config, events: seq<Event>, key: Key, op: Write)
    requires Run(cfg, events + [On(key, Begin(op))]).Some?
    ensures
      var s := SlotOf(Run(cfg, events + [On(key, Begin(op))]).value, key);
      var op' := match op
                 case Store(value, ttl) => Store(value, if ttl == 0 then cfg.defaultTTL else ttl)
                 case Remove => Remove;
      Pending1(s, op') && Pending2(s, op')
  {
    LastEvent(cfg, events, On(key, Begin(op)));
    OneSlotAfter(cfg, Run(cfg, events).value, On(key, Begin(op)), key);
  }

  /** After the L1 half of a Set, as long as nothing overwrites or evicts the key's copy in L1 and whatever is
      read, L1 answers with the value exactly up to the instant of that half plus the TTL. */
  lemma SetIsThereInL1(
    cfg: Config, events: seq<Event>, key: Key, value: Value, ttl: int, between: seq<Event>, since: seq<Event>)
    requires On(key, HalfL1) !in between && Leaves1(since, key)
    requires Run(cfg, events + [On(key, Begin(Store(value, ttl)))] + between).Some?
    requires Run(cfg, events + [On(key, Begin(Store(value, ttl)))] + between + [On(key, HalfL1)] + since).Some?
    ensures
      var at := Run(cfg, events + [On(key, Begin(Store(value, ttl)))] + between).value.now;
      var w := Run(cfg, events + [On(key, Begin(Store(value, ttl)))] + between + [On(key, HalfL1)] + since).value;
      var s, effective := SlotOf(w, key), if ttl == 0 then cfg.defaultTTL else ttl;
      && (Answers1(s, w.now) <==> (effective > 0 ==> w.now <= at + effective))
      && (Answers1(s, w.now) ==> s.l1.value.entry.value == value)
  {
    var begun := events + [On(key, Begin(Store(value, ttl)))];
    var effective := if ttl == 0 then cfg.defaultTTL else ttl;
    PendingStays(cfg, begun, between, key, Store(value, effective));
    BegunIsPending(cfg, events, key, Store(value, ttl));
    HalfL1Stays(cfg, begun + between, since, key, Store(value, effective));
  }

  lemma HalfL1Stays(cfg: Config, events: seq<Event>, since: seq<Event>, key: Key, op: Write)
    requires Run(cfg, events).Some? && Pending1(SlotOf(Run(cfg, events).value, key), op)
    requires Run(cfg, events + [On(key, HalfL1)] + since).Some? && Leaves1(since, key)
    ensures
      var w := Run(cfg, events + [On(key, HalfL1)] + since).value;
      match op
      case Store(value, ttl) => Lives1(SlotOf(w, key), value, ttl, Run(cfg, events).value.now, w.now)
      case Remove => SlotOf(w, key).l1 == None
  {
    var half := events + [On(key, HalfL1)];
    GoneStays(cfg, half, since, key);
    LastEvent(cfg, events, On(key, HalfL1));
    var w := Run(cfg, events).value;
    OneSlotAfter(cfg, w, On(key, HalfL1), key);
    HalfWrites(cfg, key, SlotOf(w, key), w.now, w.step, op);
    if op.Store? {
      Lives1Stays(cfg, half, since, key, op.value, op.ttl, w.now);
    }
  }

  lemma HalfL2Stays(cfg: Config, events: seq<Event>, since: seq<Event>, key: Key, op: Write)
    requires Run(cfg, events).Some? && Pending2(SlotOf(Run(cfg, events).value, key), op)
    requires Run(cfg, events + [On(key, HalfL2)] + since).Some? && Leaves2(since, key)
    ensures
      var w := Run(cfg, events + [On(key, HalfL2)] + since).value;
      match op
      case Store(value, ttl) => Lives2(SlotOf(w, key), value, ttl, Run(cfg, events).value.now)
      case Remove => SlotOf(w, key).l2 == None
  {
    var half := events + [On(key, HalfL2)];
    GoneStays(cfg, half, since, key);
    LastEvent(cfg, events, On(key, HalfL2));
    var w := Run(cfg, events).value;
    OneSlotAfter(cfg, w, On(key, HalfL2), key);
    HalfWrites(cfg, key, SlotOf(w, key), w.now, w.step, op);
    if op.Store? {
      Lives2Stays(cfg, half, since, key, op.value, op.ttl, w.now);
    }
  }

  /** The same for L2, strictly before the instant of its half plus the TTL. */
  lemma SetIsThereInL2(
    cfg: Config, events: seq<Event>, key: Key, value: Value, ttl: int, between: seq<Event>, since: seq<Event>)
    requires On(key, HalfL2) !in between && Leaves2(since, key)
    requires Run(cfg, events + [On(key, Begin(Store(value, ttl)))] + between).Some?
    requires Run(cfg, events + [On(key, Begin(Store(value, ttl)))] + between + [On(key, HalfL2)] + since).Some?
    ensures
      var at := Run(cfg, events + [On(key, Begin(Store(value, ttl)))] + between).value.now;
      var w := Run(cfg, events + [On(key, Begin(Store(value, ttl)))] + between + [On(key, HalfL2)] + since).value;
      var s, effective := SlotOf(w, key), if ttl == 0 then cfg.defaultTTL else ttl;
      && (Answers2(s, w.now) <==> (effective > 0 ==> w.now < at + effective))
      && (Answers2(s, w.now) ==> s.l2.value.stored.entry.value == value)
  {
    var begun := events + [On(key, Begin(Store(value, ttl)))];
    var effective := if ttl == 0 then cfg.defaultTTL else ttl;
    PendingStays(cfg, begun, between, key, Store(value, effective));
    BegunIsPending(cfg, events, key, Store(value, ttl));
    HalfL2Stays(cfg, begun + between, since, key, Store(value, effective));
  }

  /** After the half of a Delete on a level, as long as nothing is written there, the level has nothing. */
  lemma DeletedIsGone(cfg: Config, events: seq<Event>, key: Key, between: seq<Event>, half: Action, since: seq<Event>)
    requires Run(cfg, events + [On(key, Begin(Remove))] + between + [On(key, half)] + since).Some?
    requires half.HalfL1? || half.HalfL2?
    requires On(key, half) !in between
    ensures
      var s := SlotOf(Run(cfg, events + [On(key, Begin(Remove))] + between + [On(key, half)] + since).value, key);
      && (half.HalfL1? && Leaves1(since, key) ==> s.l1 == None)
      && (half.HalfL2? && Leaves2(since, key) ==> s.l2 == None)
  {
    var begun := events + [On(key, Begin(Remove))];
    GoneStays(cfg, begun + between + [On(key, half)], since, key);
    LastEvent(cfg, begun + between, On(key, half));
    PendingStays(cfg, begun, between, key, Remove);
    BegunIsPending(cfg, events, key, Remove);
    if half.HalfL1? && Leaves1(since, key) {
      HalfL1Stays(cfg, begun + between, since, key, Remove);
    } else if half.HalfL2? && Leaves2(since, key) {
      HalfL2Stays(cfg, begun + between, since, key, Remove);
    }
  }

  /** After an eviction, too. */
  lemma EvictedIsGone(cfg: Config, events: seq<Event>, key: Key, eviction: Action, since: seq<Event>)
    requires Run(cfg, events + [On(key, eviction)] + since).Some?
    ensures
      var s := SlotOf(Run(cfg, events + [On(key, eviction)] + since).value, key);
      && (eviction.EvictL1? && Leaves1(since, key) ==> s.l1 == None)
      && (eviction.EvictL2? && Leaves2(since, key) ==> s.l2 == None)
  {
    GoneStays(cfg, events + [On(key, eviction)], since, key);
    LastEvent(cfg, events, On(key, eviction));
    OneSlotAfter(cfg, Run(cfg, events).value, On(key, eviction), key);
  }

  /** After a fill has landed, in the same way, L1 answers with the filled value up to that instant plus
      DefaultTTL. */
  lemma FillIsThereInL1(cfg: Config, events: seq<Event>, key: Key, i: nat, since: seq<Event>)
    requires Leaves1(since, key) && Run(cfg, events + [On(key, Land(i))] + since).Some?
    ensures Run(cfg, events).Some? && i < |SlotOf(Run(cfg, events).value, key).fills|
    ensures
      var v, w := Run(cfg, events).value, Run(cfg, events + [On(key, Land(i))] + since).value;
      var s := SlotOf(w, key);
      && (Answers1(s, w.now) <==> (cfg.defaultTTL > 0 ==> w.now <= v.now + cfg.defaultTTL))
      && (Answers1(s, w.now) ==> s.l1.value.entry.value == SlotOf(v, key).fills[i].value)
  {
    var landed := events + [On(key, Land(i))];
    GoneStays(cfg, landed, since, key);
    LastEvent(cfg, events, On(key, Land(i)));
    var v := Run(cfg, events).value;
    OneSlotAfter(cfg, v, On(key, Land(i)), key);
    Lives1Stays(cfg, landed, since, key, SlotOf(v, key).fills[i].value, cfg.defaultTTL, v.now);
  }

  /** Fills come from reads of L2 that answer, one from each that asks for it, with the value answered, and
      go by landing, each once. */
  lemma FillsComeAndGo(cfg: Config, events: seq<Event>, key: Key, e: Event)
    requires Run(cfg, events + [e]).Some?
    ensures Run(cfg, events).Some?
    ensures
      var v := Run(cfg, events).value;
      var s, t := SlotOf(v, key), SlotOf(Run(cfg, events + [e]).value, key);
      if e == On(key, ReadL2(true)) && Answers2(s, v.now) then
        |t.fills| == |s.fills| + 1 && t.fills[..|s.fills|] == s.fills
        && t.fills[|s.fills|].value == s.l2.value.stored.entry.value && t.fills[|s.fills|].readAt == v.now
      else if e.On? && e.key == key && e.action.Land? then
        e.action.i < |s.fills| && t.fills == s.fills[..e.action.i] + s.fills[e.action.i + 1..]
      else t.fills == s.fills
  {
    LastEvent(cfg, events, e);
    OneSlotAfter(cfg, Run(cfg, events).value, e, key);
  }
}
