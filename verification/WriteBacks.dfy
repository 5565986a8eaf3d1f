/** One key under write-through Sets and Deletes when each level's Get reads the entry and writes it back in
    two steps (internal/cache/bigcache.go, redis_cache.go, manager.go). Module Coherence takes a Get of a level
    as one step; here its write-back, like a fill, is a job that can land at any later moment or never. Time
    is left out: an entry that expires is one that is lost. No operation on one key touches another, so one key
    is enough. */
module WriteBacks {
  import opened Entries

  datatype Write = Store(value: Value) | Remove

  /** How a copy came to where it is; the numbers are positions in the run. */
  datatype Origin =
    | Half(at: int)                                 // a half of a Set
    | Back(look: int, land: int, from: Origin)      // a write-back of what the same level held
    | Fill(look: int, land: int, from: Origin)      // a fill of L1 with what L2 held

  /** write is the number of the Set the value came from; a proof needs it, the cache does not look at it. */
  datatype Copy = Copy(value: Value, write: nat, origin: Origin)

  datatype Job = BackL1(copy: Copy, look: int) | BackL2(copy: Copy, look: int) | FillL1(copy: Copy, look: int)

  datatype Phase = Idle | Busy(l1Done: bool, l2Done: bool)

  /** half1 and half2 are the positions of the latest halves of a write on the two levels. */
  datatype Slot = Slot(
    l1: Option<Copy>, l2: Option<Copy>, jobs: seq<Job>, writes: seq<Write>, phase: Phase, half1: int, half2: int)

  const START := Slot(None, None, [], [], Idle, -1, -1)

  datatype Event =
    | Begin(op: Write)
    | HalfL1
    | HalfL2
    | Finish
    | LookL1                   // a Get reads L1
    | LookL2(thenFill: bool)   // a Get that missed L1 or the warmer reads L2; GetFromLevel does without a fill
    | Land(i: nat)             // a write-back or a fill is made
    | LoseL1                   // eviction, expiry, Clear
    | LoseL2

  predicate Enabled(s: Slot, e: Event) {
    match e
    case Begin(op) => s.phase.Idle? && (op.Store? ==> op.value != Nil)
    case HalfL1 => s.phase.Busy? && !s.phase.l1Done && s.writes != []
    case HalfL2 => s.phase.Busy? && !s.phase.l2Done && s.writes != []
    case Finish => s.phase == Busy(true, true)
    case Land(i) => i < |s.jobs|
    case _ => true
  }

  /** What a half of the current write leaves on its level. */
  function Written(writes: seq<Write>, now: int): Option<Copy>
    requires writes != []
  {
    match writes[|writes| - 1]
    case Store(value) => Some(Copy(value, |writes|, Half(now)))
    case Remove => None
  }

  function Next(s: Slot, e: Event, now: int): Slot
    requires Enabled(s, e)
  {
    match e
    case Begin(op) => s.(writes := s.writes + [op], phase := Busy(false, false))
    case HalfL1 => s.(l1 := Written(s.writes, now), phase := s.phase.(l1Done := true), half1 := now)
    case HalfL2 => s.(l2 := Written(s.writes, now), phase := s.phase.(l2Done := true), half2 := now)
    case Finish => s.(phase := Idle)
    case LookL1 => if s.l1.Some? then s.(jobs := s.jobs + [BackL1(s.l1.value, now)]) else s
    case LookL2(thenFill) =>
      if s.l2.None? then s
      else s.(jobs := s.jobs + [BackL2(s.l2.value, now)] + if thenFill then [FillL1(s.l2.value, now)] else [])
    case Land(i) =>
      var c := s.jobs[i].copy;
      var rest := s.(jobs := s.jobs[..i] + s.jobs[i + 1..]);
      (match s.jobs[i]
       case BackL1(_, look) => rest.(l1 := Some(c.(origin := Back(look, now, c.origin))))
       case BackL2(_, look) => rest.(l2 := Some(c.(origin := Back(look, now, c.origin))))
       case FillL1(_, look) => rest.(l1 := Some(c.(origin := Fill(look, now, c.origin)))))
    case LoseL1 => s.(l1 := None)
    case LoseL2 => s.(l2 := None)
  }

  function Run(events: seq<Event>): Option<Slot> {
    if events == [] then Some(START)
    else
      var n := |events| - 1;
      match Run(events[..n])
      case None => None
      case Some(s) => if Enabled(s, events[n]) then Some(Next(s, events[n], n)) else None
  }

  // ----- Late write-backs and fills -----

  /** On its way into L2 the copy was read before the latest L2 half and written back after it. */
  predicate LateL2(o: Origin, half2: int) {
    o.Back? && (o.look < half2 || LateL2(o.from, half2))
  }

  /** The copy was filled from L2 after the latest L2 half, and was not a late one there: it is of the newest
      write L2 has seen, even if L1 has not seen that yet. */
  predicate AheadOfL1(o: Origin, half2: int) {
    match o
    case Half(_) => false
    case Back(_, _, from) => AheadOfL1(from, half2)
    case Fill(look, _, from) => half2 < look && !LateL2(from, half2)
  }

  /** On its way into L1, the copy was read before the latest L1 half and written back after it (and was not
      ahead of L1 then), or was filled from L2 by a read before the latest L2 half or of a late copy. */
  predicate LateL1(o: Origin, half1: int, half2: int) {
    match o
    case Half(_) => false
    case Back(look, _, from) => if look < half1 then !AheadOfL1(from, half2) else LateL1(from, half1, half2)
    case Fill(look, _, from) => look < half2 || LateL2(from, half2)
  }

  // ----- The invariant -----

  function Reached1(s: Slot): int {
    if s.phase.Busy? && !s.phase.l1Done then |s.writes| - 1 else |s.writes|
  }

  function Reached2(s: Slot): int {
    if s.phase.Busy? && !s.phase.l2Done then |s.writes| - 1 else |s.writes|
  }

  /** A fill is on the way. */
  predicate FromL2(o: Origin) {
    match o
    case Half(_) => false
    case Back(_, _, from) => FromL2(from)
    case Fill(_, _, _) => true
  }

  /** The half of a write the copy goes back to. */
  function Root(o: Origin): int {
    match o
    case Half(at) => at
    case Back(_, _, from) => Root(from)
    case Fill(_, _, from) => Root(from)
  }

  /** When the copy got where it is. */
  function Born(o: Origin): int {
    match o
    case Half(at) => at
    case Back(_, land, _) => land
    case Fill(_, land, _) => land
  }

  /** The steps of the way are in order. */
  predicate InOrder(o: Origin) {
    o.Half? || (Born(o.from) < o.look < o.land && InOrder(o.from))
  }

  predicate OnlyL2(o: Origin) {
    o.Half? || (o.Back? && OnlyL2(o.from))
  }

  predicate OnlyL1(o: Origin) {
    match o
    case Half(_) => true
    case Back(_, _, from) => OnlyL1(from)
    case Fill(_, _, from) => OnlyL2(from)
  }

  /** Nothing has overwritten the copy since: it got there at or after the latest half, and what it was
      read from at or after that half was there then, too. */
  predicate There2(o: Origin, half2: int) {
    match o
    case Half(at) => at == half2
    case Back(look, land, from) => half2 < land && look != half2 && (half2 < look ==> There2(from, half2))
    case Fill(_, _, _) => false
  }

  predicate There1(o: Origin, half1: int) {
    match o
    case Half(at) => at == half1
    case Back(look, land, from) => half1 < land && look != half1 && (half1 < look ==> There1(from, half1))
    case Fill(_, land, _) => half1 < land
  }

  /** What a fill read in L2 was there, unless L2 has been written since. */
  predicate FillsSound(o: Origin, half2: int) {
    match o
    case Half(_) => true
    case Back(_, _, from) => FillsSound(from, half2)
    case Fill(look, _, from) => look != half2 && (half2 < look ==> There2(from, half2))
  }

  predicate From(writes: seq<Write>, c: Copy) {
    1 <= c.write <= |writes| && writes[c.write - 1] == Store(c.value)
  }

  /** A copy of L2, wherever it is carried, seen there at position look. */
  predicate Copy2Ok(s: Slot, c: Copy, look: int) {
    && From(s.writes, c)
    && InOrder(c.origin) && OnlyL2(c.origin) && Born(c.origin) < look
    && c.write <= Reached2(s) && (c.write == Reached2(s) <==> Root(c.origin) == s.half2)
    && Root(c.origin) <= s.half2
    && (s.half2 < look ==> There2(c.origin, s.half2))
  }

  predicate Copy1Ok(s: Slot, c: Copy, look: int) {
    && From(s.writes, c)
    && InOrder(c.origin) && OnlyL1(c.origin) && Born(c.origin) < look
    && (if FromL2(c.origin)
        then c.write <= Reached2(s) && Root(c.origin) <= s.half2
             && (c.write == Reached2(s) <==> Root(c.origin) == s.half2)
        else c.write <= Reached1(s) && Root(c.origin) <= s.half1
             && (c.write == Reached1(s) <==> Root(c.origin) == s.half1))
    && FillsSound(c.origin, s.half2)
    && (s.half1 < look ==> There1(c.origin, s.half1))
  }

  predicate JobOk(s: Slot, j: Job, now: int) {
    && j.look < now && j.look != s.half1 && j.look != s.half2
    && (if j.BackL1? then Copy1Ok(s, j.copy, j.look) else Copy2Ok(s, j.copy, j.look))
  }

  predicate Inv(s: Slot, now: int) {
    && (s.phase.Busy? ==> s.writes != [])
    && s.half1 < now && s.half2 < now
    && (s.l1.Some? ==> Copy1Ok(s, s.l1.value, now))
    && (s.l2.Some? ==> Copy2Ok(s, s.l2.value, now))
    && forall j | j in s.jobs :: JobOk(s, j, now)
  }

  // ----- It is kept -----

  /** A later half on L2 leaves what was read before it in order. */
  lemma Copy2After(s: Slot, t: Slot, c: Copy, look: int)
    requires Copy2Ok(s, c, look) && look < t.half2 && s.half2 < t.half2
    requires From(t.writes, c) && Reached2(t) == Reached2(s) + 1
    ensures Copy2Ok(t, c, look)
  {
  }

  lemma {:induction false} FillsBefore(o: Origin, half2: int)
    requires InOrder(o) && Born(o) < half2
    ensures FillsSound(o, half2)
  {
    if o.Back? {
      FillsBefore(o.from, half2);
    }
  }

  lemma Copy1AfterL2(s: Slot, t: Slot, c: Copy, look: int)
    requires Copy1Ok(s, c, look) && look <= t.half2 && s.half2 < t.half2 && t.half1 == s.half1
    requires From(t.writes, c) && Reached2(t) == Reached2(s) + 1 && Reached1(t) == Reached1(s)
    ensures Copy1Ok(t, c, look)
  {
    FillsBefore(c.origin, t.half2);
  }

  lemma Copy1AfterL1(s: Slot, t: Slot, c: Copy, look: int)
    requires Copy1Ok(s, c, look) && look < t.half1 && s.half1 < t.half1 && t.half2 == s.half2
    requires From(t.writes, c) && Reached1(t) == Reached1(s) + 1 && Reached2(t) == Reached2(s)
    ensures Copy1Ok(t, c, look)
  {
  }

  /** What a step that is no half of a write leaves alone. */
  lemma CopiesAfterOther(s: Slot, t: Slot, c: Copy, look: int)
    requires t.half1 == s.half1 && t.half2 == s.half2 && (forall d | From(s.writes, d) :: From(t.writes, d))
    requires Reached1(t) == Reached1(s) && Reached2(t) == Reached2(s)
    ensures Copy1Ok(s, c, look) ==> Copy1Ok(t, c, look)
    ensures Copy2Ok(s, c, look) ==> Copy2Ok(t, c, look)
  {
  }

  lemma SeenLater1(s: Slot, c: Copy, now: int)
    requires Copy1Ok(s, c, now) && s.half1 < now
    ensures Copy1Ok(s, c, now + 1)
  {
  }

  lemma SeenLater2(s: Slot, c: Copy, now: int)
    requires Copy2Ok(s, c, now) && s.half2 < now
    ensures Copy2Ok(s, c, now + 1)
  {
  }

  lemma InvAfterHalfL1(s: Slot, now: int)
    requires Inv(s, now) && Enabled(s, HalfL1)
    ensures Inv(Next(s, HalfL1, now), now + 1)
  {
    var t := Next(s, HalfL1, now);
    assert Reached1(t) == Reached1(s) + 1 && Reached2(t) == Reached2(s);
    if s.l2.Some? {
      SeenLater2(s, s.l2.value, now);
      assert Copy2Ok(t, s.l2.value, now + 1);
    }
    forall j | j in t.jobs
      ensures JobOk(t, j, now + 1)
    {
      assert JobOk(s, j, now);
      if j.BackL1? {
        Copy1AfterL1(s, t, j.copy, j.look);
      }
    }
  }

  lemma InvAfterHalfL2(s: Slot, now: int)
    requires Inv(s, now) && Enabled(s, HalfL2)
    ensures Inv(Next(s, HalfL2, now), now + 1)
  {
    var t := Next(s, HalfL2, now);
    assert Reached2(t) == Reached2(s) + 1 && Reached1(t) == Reached1(s);
    if s.l1.Some? {
      Copy1AfterL2(s, t, s.l1.value, now);
      SeenLater1(t, s.l1.value, now);
    }
    forall j | j in t.jobs
      ensures JobOk(t, j, now + 1)
    {
      assert JobOk(s, j, now);
      if j.BackL1? {
        Copy1AfterL2(s, t, j.copy, j.look);
      } else {
        Copy2After(s, t, j.copy, j.look);
      }
    }
  }

  /** The copy a job puts into its level. */
  lemma LandedOk(s: Slot, j: Job, now: int)
    requires JobOk(s, j, now) && s.half1 < now && s.half2 < now
    ensures j.BackL1? ==> Copy1Ok(s, j.copy.(origin := Back(j.look, now, j.copy.origin)), now + 1)
    ensures j.BackL2? ==> Copy2Ok(s, j.copy.(origin := Back(j.look, now, j.copy.origin)), now + 1)
    ensures j.FillL1? ==> Copy1Ok(s, j.copy.(origin := Fill(j.look, now, j.copy.origin)), now + 1)
  {
  }

  /** A step that is no half of a write keeps the invariant if what it brings in is in order. */
  lemma InvAfterOther(s: Slot, t: Slot, now: int)
    requires Inv(s, now) && t.half1 == s.half1 && t.half2 == s.half2 && (t.phase.Busy? ==> t.writes != [])
    requires Reached1(t) == Reached1(s) && Reached2(t) == Reached2(s)
    requires forall d | From(s.writes, d) :: From(t.writes, d)
    requires t.l1 == s.l1 || t.l1 == None || Copy1Ok(s, t.l1.value, now + 1)
    requires t.l2 == s.l2 || t.l2 == None || Copy2Ok(s, t.l2.value, now + 1)
    requires forall j | j in t.jobs :: JobOk(s, j, now) || JobOk(s, j, now + 1)
    ensures Inv(t, now + 1)
  {
    if t.l1.Some? {
      if t.l1 == s.l1 {
        SeenLater1(s, s.l1.value, now);
      }
      CopiesAfterOther(s, t, t.l1.value, now + 1);
    }
    if t.l2.Some? {
      if t.l2 == s.l2 {
        SeenLater2(s, s.l2.value, now);
      }
      CopiesAfterOther(s, t, t.l2.value, now + 1);
    }
    forall j | j in t.jobs
      ensures JobOk(t, j, now + 1)
    {
      CopiesAfterOther(s, t, j.copy, j.look);
    }
  }

  lemma InvAfterLand(s: Slot, i: nat, now: int)
    requires Inv(s, now) && i < |s.jobs|
    ensures Inv(Next(s, Land(i), now), now + 1)
  {
    var t := Next(s, Land(i), now);
    assert s.jobs[i] in s.jobs;
    LandedOk(s, s.jobs[i], now);
    assert forall j | j in t.jobs :: j in s.jobs;
    InvAfterOther(s, t, now);
  }

  lemma InvAfterLook(s: Slot, e: Event, now: int)
    requires Inv(s, now) && (e.LookL1? || e.LookL2?)
    ensures Inv(Next(s, e, now), now + 1)
  {
    var t := Next(s, e, now);
    forall j | j in t.jobs
      ensures JobOk(s, j, now) || JobOk(s, j, now + 1)
    {
      if j !in s.jobs {
        assert j.look == now && (if j.BackL1? then Some(j.copy) == s.l1 else Some(j.copy) == s.l2);
      }
    }
    InvAfterOther(s, t, now);
  }

  lemma InvAfterCall(s: Slot, e: Event, now: int)
    requires Inv(s, now) && Enabled(s, e) && (e.Begin? || e.Finish? || e.LoseL1? || e.LoseL2?)
    ensures Inv(Next(s, e, now), now + 1)
  {
    InvAfterOther(s, Next(s, e, now), now);
  }

  lemma InvKept(s: Slot, e: Event, now: int)
    requires Inv(s, now) && Enabled(s, e)
    ensures Inv(Next(s, e, now), now + 1)
  {
    if e.HalfL1? {
      InvAfterHalfL1(s, now);
    } else if e.HalfL2? {
      InvAfterHalfL2(s, now);
    } else if e.Land? {
      InvAfterLand(s, e.i, now);
    } else if e.LookL1? || e.LookL2? {
      InvAfterLook(s, e, now);
    } else {
      InvAfterCall(s, e, now);
    }
  }

  lemma {:induction false} InvHolds(events: seq<Event>)
    requires Run(events).Some?
    ensures Inv(Run(events).value, |events|)
  {
    if events != [] {
      var n := |events| - 1;
      InvHolds(events[..n]);
      InvKept(Run(events[..n]).value, events[n], n);
    }
  }

  // ----- What late means -----

  lemma {:induction false} RootBeforeBirth(o: Origin)
    requires InOrder(o)
    ensures Root(o) <= Born(o)
  {
    if !o.Half? {
      RootBeforeBirth(o.from);
    }
  }

  lemma {:induction false} LateOnL2(o: Origin, half2: int)
    requires InOrder(o) && OnlyL2(o) && There2(o, half2)
    ensures LateL2(o, half2) <==> Root(o) != half2
  {
    if o.Back? {
      if half2 < o.look {
        LateOnL2(o.from, half2);
      } else {
        RootBeforeBirth(o.from);
      }
    }
  }

  lemma LateOnFill(o: Origin, half2: int)
    requires InOrder(o) && OnlyL1(o) && FillsSound(o, half2) && o.Fill?
    ensures o.look < half2 || LateL2(o.from, half2) <==> Root(o) != half2
  {
    if half2 < o.look {
      LateOnL2(o.from, half2);
    } else {
      RootBeforeBirth(o.from);
    }
  }

  lemma {:induction false} AheadMeans(o: Origin, half2: int)
    requires InOrder(o) && OnlyL1(o) && FillsSound(o, half2)
    ensures AheadOfL1(o, half2) <==> FromL2(o) && Root(o) == half2
  {
    if o.Fill? {
      LateOnFill(o, half2);
    } else if o.Back? {
      AheadMeans(o.from, half2);
    }
  }

  lemma {:induction false} LateOnL1(o: Origin, half1: int, half2: int)
    requires InOrder(o) && OnlyL1(o) && FillsSound(o, half2) && There1(o, half1)
    ensures LateL1(o, half1, half2) <==> Root(o) != if FromL2(o) then half2 else half1
  {
    if o.Fill? {
      LateOnFill(o, half2);
    } else if o.Back? {
      if half1 < o.look {
        LateOnL1(o.from, half1, half2);
      } else {
        AheadMeans(o.from, half2);
        RootBeforeBirth(o.from);
      }
    }
  }

  predicate NoHalfDone(s: Slot) {
    s.phase.Idle? || s.phase.l1Done == s.phase.l2Done
  }

  /** The value is that of the last write that has reached both levels, which then was no Delete. */
  predicate IsLastWrite(s: Slot, value: Value) {
    var n := Reached1(s);
    n >= 1 && s.writes[n - 1] == Store(value)
  }

  /** Whenever no write is half done, a level holds something other than the last completed write iff it
      came there by a late write-back or, in L1, a late fill. Anything held after a Delete is such a copy. */
  lemma StaleIffLate(events: seq<Event>)
    requires Run(events).Some? && NoHalfDone(Run(events).value)
    ensures
      var s := Run(events).value;
      && (s.l1.Some? ==> From(s.writes, s.l1.value))
      && (s.l2.Some? ==> From(s.writes, s.l2.value))
      && (s.l1.Some? ==> (LateL1(s.l1.value.origin, s.half1, s.half2) <==> s.l1.value.write != Reached1(s)))
      && (s.l2.Some? ==> (LateL2(s.l2.value.origin, s.half2) <==> s.l2.value.write != Reached1(s)))
      && (s.l1.Some? && !LateL1(s.l1.value.origin, s.half1, s.half2) ==> IsLastWrite(s, s.l1.value.value))
      && (s.l2.Some? && !LateL2(s.l2.value.origin, s.half2) ==> IsLastWrite(s, s.l2.value.value))
  {
    InvHolds(events);
    var s := Run(events).value;
    if s.l1.Some? {
      LateOnL1(s.l1.value.origin, s.half1, s.half2);
    }
    if s.l2.Some? {
      LateOnL2(s.l2.value.origin, s.half2);
    }
  }

  // ----- The positions are events of the run -----

  predicate IsAt(events: seq<Event>, at: int, e: Event) {
    0 <= at < |events| && events[at] == e
  }

  predicate Lands(events: seq<Event>, at: int) {
    0 <= at < |events| && events[at].Land?
  }

  predicate LooksAtL2(events: seq<Event>, at: int) {
    0 <= at < |events| && events[at].LookL2?
  }

  predicate Traced2(events: seq<Event>, o: Origin) {
    match o
    case Half(at) => IsAt(events, at, HalfL2)
    case Back(look, land, from) => LooksAtL2(events, look) && Lands(events, land) && Traced2(events, from)
    case Fill(_, _, _) => false
  }

  predicate Traced1(events: seq<Event>, o: Origin) {
    match o
    case Half(at) => IsAt(events, at, HalfL1)
    case Back(look, land, from) => IsAt(events, look, LookL1) && Lands(events, land) && Traced1(events, from)
    case Fill(look, land, from) => IsAt(events, look, LookL2(true)) && Lands(events, land) && Traced2(events, from)
  }

  predicate JobTraced(events: seq<Event>, j: Job) {
    match j
    case BackL1(c, look) => IsAt(events, look, LookL1) && Traced1(events, c.origin)
    case BackL2(c, look) => LooksAtL2(events, look) && Traced2(events, c.origin)
    case FillL1(c, look) => IsAt(events, look, LookL2(true)) && Traced2(events, c.origin)
  }

  predicate CopiesTraced(events: seq<Event>, s: Slot) {
    && (s.l1.Some? ==> Traced1(events, s.l1.value.origin))
    && (s.l2.Some? ==> Traced2(events, s.l2.value.origin))
    && (forall j | j in s.jobs :: JobTraced(events, j))
  }

  predicate HalvesTraced(events: seq<Event>, s: Slot) {
    && (s.half1 == -1 || IsAt(events, s.half1, HalfL1))
    && (s.half2 == -1 || IsAt(events, s.half2, HalfL2))
    && -1 <= s.half1 && (forall i | s.half1 < i < |events| :: events[i] != HalfL1)
    && -1 <= s.half2 && (forall i | s.half2 < i < |events| :: events[i] != HalfL2)
  }

  lemma {:induction false} TracedOn2(events: seq<Event>, e: Event, o: Origin)
    requires Traced2(events, o)
    ensures Traced2(events + [e], o)
  {
    if o.Back? {
      TracedOn2(events, e, o.from);
    }
  }

  lemma {:induction false} TracedOn1(events: seq<Event>, e: Event, o: Origin)
    requires Traced1(events, o)
    ensures Traced1(events + [e], o)
  {
    if o.Back? {
      TracedOn1(events, e, o.from);
    } else if o.Fill? {
      TracedOn2(events, e, o.from);
    }
  }

  lemma JobTracedOn(events: seq<Event>, e: Event, j: Job)
    requires JobTraced(events, j)
    ensures JobTraced(events + [e], j)
  {
    if j.BackL1? {
      TracedOn1(events, e, j.copy.origin);
    } else {
      TracedOn2(events, e, j.copy.origin);
    }
  }

  /** What an event leaves where it was stays traced. */
  lemma StaysTraced(events: seq<Event>, s: Slot, e: Event)
    requires CopiesTraced(events, s)
    ensures CopiesTraced(events + [e], s)
  {
    if s.l1.Some? {
      TracedOn1(events, e, s.l1.value.origin);
    }
    if s.l2.Some? {
      TracedOn2(events, e, s.l2.value.origin);
    }
    forall j | j in s.jobs
      ensures JobTraced(events + [e], j)
    {
      JobTracedOn(events, e, j);
    }
  }

  /** And what it brings in is traced to it. */
  lemma NewIsTraced(events: seq<Event>, s: Slot, e: Event)
    requires CopiesTraced(events + [e], s) && Enabled(s, e)
    ensures CopiesTraced(events + [e], Next(s, e, |events|))
  {
    assert (events + [e])[|events|] == e;
    if e.Land? {
      assert s.jobs[e.i] in s.jobs && JobTraced(events + [e], s.jobs[e.i]);
      assert forall j | j in Next(s, e, |events|).jobs :: j in s.jobs;
    }
  }

  lemma HalvesStayTraced(events: seq<Event>, s: Slot, e: Event)
    requires HalvesTraced(events, s) && Enabled(s, e)
    ensures HalvesTraced(events + [e], Next(s, e, |events|))
  {
    var t := Next(s, e, |events|);
    assert t.half1 == if e == HalfL1 then |events| else s.half1;
    assert t.half2 == if e == HalfL2 then |events| else s.half2;
  }

  /** Every position named by the way a copy took is the event of the run it is said to be, and the halves
      the theorem speaks of are the last ones. */
  lemma {:induction false} PositionsAreEvents(events: seq<Event>)
    requires Run(events).Some?
    ensures CopiesTraced(events, Run(events).value) && HalvesTraced(events, Run(events).value)
  {
    if events != [] {
      var n := |events| - 1;
      var before, s, e := events[..n], Run(events[..n]).value, events[n];
      PositionsAreEvents(before);
      StaysTraced(before, s, e);
      NewIsTraced(before, s, e);
      HalvesStayTraced(before, s, e);
      assert before + [e] == events;
    }
  }

  // ----- What a half leaves there -----

  predicate Leaves1(since: seq<Event>) {
    forall e | e in since :: !e.HalfL1? && !e.Land? && !e.LoseL1?
  }

  predicate Leaves2(since: seq<Event>) {
    forall e | e in since :: !e.HalfL2? && !e.Land? && !e.LoseL2?
  }

  lemma {:induction false} NothingTouches(events: seq<Event>, since: seq<Event>)
    requires Run(events + since).Some?
    ensures Run(events).Some?
    ensures Leaves1(since) ==> Run(events + since).value.l1 == Run(events).value.l1
    ensures Leaves2(since) ==> Run(events + since).value.l2 == Run(events).value.l2
  {
    if since == [] {
      assert events + since == events;
    } else {
      var init, e := since[..|since| - 1], since[|since| - 1];
      assert (events + since)[..|events + since| - 1] == events + init;
      assert since == init + [e];
      NothingTouches(events, init);
    }
  }

  /** After a half of a write its level holds what that write says, until it is written or loses it. */
  lemma HalfIsThere(events: seq<Event>, since: seq<Event>, half: Event)
    requires Run(events + [half] + since).Some? && (half.HalfL1? || half.HalfL2?)
    ensures Run(events).Some? && Run(events).value.writes != []
    ensures
      var writes, t := Run(events).value.writes, Run(events + [half] + since).value;
      var held := if half.HalfL1? then t.l1 else t.l2;
      (if half.HalfL1? then Leaves1(since) else Leaves2(since)) ==>
        match writes[|writes| - 1]
        case Store(value) => held.Some? && held.value.value == value && held.value.write == |writes|
        case Remove => held == None
  {
    NothingTouches(events + [half], since);
    assert (events + [half])[..|events|] == events;
  }

  lemma LostIsGone(events: seq<Event>, since: seq<Event>, loss: Event)
    requires Run(events + [loss] + since).Some?
    ensures loss.LoseL1? && Leaves1(since) ==> Run(events + [loss] + since).value.l1 == None
    ensures loss.LoseL2? && Leaves2(since) ==> Run(events + [loss] + since).value.l2 == None
  {
    NothingTouches(events + [loss], since);
    assert (events + [loss])[..|events|] == events;
  }

  // ----- It happens -----

  lemma Do(events: seq<Event>, s: Slot, e: Event) returns (events': seq<Event>, s': Slot)
    requires Run(events) == Some(s) && Enabled(s, e)
    ensures s' == Next(s, e, |events|) && events' == events + [e] && Run(events') == Some(s')
  {
    events', s' := events + [e], Next(s, e, |events|);
    assert events'[..|events|] == events;
  }

  /** A value is set on both levels. */
  lemma SetDone(v: Value) returns (events: seq<Event>, s: Slot)
    requires v != Nil
    ensures events == [Begin(Store(v)), HalfL1, HalfL2, Finish] && Run(events) == Some(s)
    ensures s == Slot(Some(Copy(v, 1, Half(1))), Some(Copy(v, 1, Half(2))), [], [Store(v)], Idle, 1, 2)
  {
    events, s := [], START;
    events, s := Do(events, s, Begin(Store(v)));
    assert s == Slot(None, None, [], [Store(v)], Busy(false, false), -1, -1);
    events, s := Do(events, s, HalfL1);
    assert s == Slot(Some(Copy(v, 1, Half(1))), None, [], [Store(v)], Busy(true, false), 1, -1);
    events, s := Do(events, s, HalfL2);
    assert s == Slot(Some(Copy(v, 1, Half(1))), Some(Copy(v, 1, Half(2))), [], [Store(v)], Busy(true, true), 1, 2);
    events, s := Do(events, s, Finish);
  }

  /** Without any fill: a read of L2 alone that overlaps a Delete brings the deleted value back into L2. */
  lemma WriteBackRevives(v: Value) returns (events: seq<Event>)
    requires v != Nil
    ensures events == [Begin(Store(v)), HalfL1, HalfL2, Finish, LookL2(false),
                       Begin(Remove), HalfL1, HalfL2, Finish, Land(0)]
    ensures Run(events).Some?
    ensures
      var s := Run(events).value;
      && s.phase.Idle? && s.writes == [Store(v), Remove]
      && s.l2.Some? && s.l2.value.value == v && LateL2(s.l2.value.origin, s.half2)
  {
    var s: Slot;
    events, s := SetDone(v);
    events, s := Do(events, s, LookL2(false));
    var job := BackL2(Copy(v, 1, Half(2)), 4);
    assert s.jobs == [job];
    events, s := Do(events, s, Begin(Remove));
    assert s.writes == [Store(v), Remove];
    events, s := Do(events, s, HalfL1);
    events, s := Do(events, s, HalfL2);
    assert s == Slot(None, None, [job], [Store(v), Remove], Busy(true, true), 6, 7);
    events, s := Do(events, s, Finish);
    events, s := Do(events, s, Land(0));
  }

  /** A second Set has reached L2 and, by a fill, L1, before its own L1 half; a Get reads it there. */
  lemma NewValueAhead(v: Value, v': Value) returns (events: seq<Event>, s: Slot)
    requires v != Nil && v' != Nil
    ensures Run(events) == Some(s) && |events| == 10
    ensures s.writes == [Store(v), Store(v')] && s.phase == Busy(false, true) && s.half1 == 1 && s.half2 == 5
    ensures |s.jobs| == 2 && s.jobs[1] == BackL1(Copy(v', 2, Fill(7, 8, Half(5))), 9)
  {
    events, s := SetDone(v);
    events, s := Do(events, s, Begin(Store(v')));
    events, s := Do(events, s, HalfL2);
    events, s := Do(events, s, LoseL1);
    events, s := Do(events, s, LookL2(true));
    events, s := Do(events, s, Land(1));
    events, s := Do(events, s, LookL1);
  }

  /** So a write-back into L1 that overlaps a Set is not always stale: it may carry the new value. */
  lemma LateWriteBackOfTheNewValue(v: Value, v': Value) returns (events: seq<Event>)
    requires v != Nil && v' != Nil
    ensures Run(events).Some?
    ensures
      var s := Run(events).value;
      && s.phase.Idle? && s.writes == [Store(v), Store(v')]
      && s.l1.Some? && s.l1.value.origin.Back? && s.l1.value.origin.look < s.half1 < s.l1.value.origin.land
      && IsLastWrite(s, s.l1.value.value)
  {
    var s: Slot;
    events, s := NewValueAhead(v, v');
    events, s := Do(events, s, HalfL1);
    events, s := Do(events, s, Finish);
    events, s := Do(events, s, Land(1));
  }
}
