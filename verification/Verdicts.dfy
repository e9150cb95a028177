/** The Authenticode verdict cache (verdicts_windows.go): one lock over two maps.
    Verifying a file, duplicating and querying a process handle, and the clock are
    answers given from outside. */
module Verdicts {
  import opened Options

  const LIFETIME := 300_000_000_000  // five minutes, in nanoseconds
  const LIMIT := 256

  datatype Key = Key(pid: nat, started: int, image: string, revocation: bool)

  /** What a verification found, and when. */
  datatype Finding = Finding(code: string, verdict: nat, at: nat)

  type Handle = nat

  datatype Held = Held(proc: Handle, finding: Finding)

  /** Who holds an open duplicate of a process handle. */
  datatype Owner = InEntry(key: Key) | ByCaller(i: nat)

  /** The cache, the verifications in flight by their caller, and the open handles. */
  datatype Cache = Cache(entries: map<Key, Held>, working: map<Key, nat>, open: map<Handle, Owner>)

  predicate Fresh(f: Finding, now: nat) {
    f.at <= now && now - f.at < LIFETIME
  }

  datatype Found = Hit(finding: Finding) | Wait(worker: nat) | Verify

  /** Deleting an entry closes its handle. */
  function Drop(c: Cache, k: Key): Cache
    requires k in c.entries
  {
    c.(entries := c.entries - {k}, open := c.open - {c.entries[k].proc})
  }

  /** The first region of verifyProcessImageAt, for caller i. */
  function Lookup(c: Cache, key: Key, now: nat, i: nat): (Cache, Found) {
    if key in c.entries && Fresh(c.entries[key].finding, now) then (c, Hit(c.entries[key].finding))
    else
      var c' := if key in c.entries then Drop(c, key) else c;
      if key in c'.working then (c', Wait(c'.working[key]))
      else (c'.(working := c'.working[key := i]), Verify)
  }

  /** An entry that keepVerdict leaves: its process runs and its age is known and within the lifetime. */
  predicate Stays(entries: map<Key, Held>, gone: set<Key>, now: nat, k: Key) {
    k in entries && k !in gone && Fresh(entries[k].finding, now)
  }

  predicate Oldest(entries: map<Key, Held>, k: Key) {
    k in entries && forall j :: j in entries ==> entries[k].finding.at <= entries[j].finding.at
  }

  function Swept(c: Cache, gone: set<Key>, now: nat): Cache {
    c.(entries := map k | k in c.entries && Stays(c.entries, gone, now, k) :: c.entries[k],
       open := map h | h in c.open && !(c.open[h].InEntry? && c.open[h].key in c.entries && !Stays(c.entries, gone, now, c.open[h].key)) :: c.open[h])
  }

  /** The last region of keepVerdict: drop what is stale or gone, make room by
      dropping an oldest entry, and hold the new one. */
  function Keep(c: Cache, key: Key, held: Held, gone: set<Key>, victim: Key): Cache {
    var c2 := MadeRoom(c, key, held, gone, victim);
    c2.(entries := c2.entries[key := held], open := c2.open[held.proc := InEntry(key)])
  }

  function Finish(c: Cache, key: Key): Cache {
    c.(working := c.working - {key})
  }

  /** Every open handle is held by exactly one entry or one caller. */
  predicate Handles(c: Cache) {
    && (forall k :: k in c.entries ==> c.entries[k].proc in c.open && c.open[c.entries[k].proc] == InEntry(k))
    && (forall h :: h in c.open && c.open[h].InEntry? ==> c.open[h].key in c.entries && c.entries[c.open[h].key].proc == h)
  }

  /** c' is c without some of its entries, whose handles are closed. */
  predicate Lighter(c: Cache, c': Cache) {
    && c'.working == c.working && |c'.entries| <= |c.entries|
    && (forall k :: k in c'.entries ==> k in c.entries && c'.entries[k] == c.entries[k])
    && (forall h :: h in c'.open ==> h in c.open && c'.open[h] == c.open[h])
    && (forall h :: h in c.open && c.open[h].ByCaller? ==> h in c'.open)
  }

  lemma DropHandles(c: Cache, k: Key)
    requires Handles(c) && k in c.entries
    ensures Handles(Drop(c, k)) && Lighter(c, Drop(c, k)) && |Drop(c, k).entries| == |c.entries| - 1
  {
    assert (c.entries - {k}).Keys == c.entries.Keys - {k};
  }

  lemma SweptHandles(c: Cache, gone: set<Key>, now: nat)
    requires Handles(c)
    ensures Handles(Swept(c, gone, now)) && Lighter(c, Swept(c, gone, now))
  {
    var e := Swept(c, gone, now).entries;
    assert e.Keys <= c.entries.Keys;
    Smaller(e.Keys, c.entries.Keys);
  }

  lemma LighterTrans(a: Cache, b: Cache, c: Cache)
    requires Lighter(a, b) && Lighter(b, c)
    ensures Lighter(a, c)
  {
  }

  lemma {:induction false} Smaller<T>(a: set<T>, b: set<T>)
    requires a <= b
    ensures |a| <= |b|
    decreases a
  {
    if a != {} {
      var x :| x in a;
      Smaller(a - {x}, b - {x});
    }
  }

  /** The cache before the new entry joins it. */
  function MadeRoom(c: Cache, key: Key, held: Held, gone: set<Key>, victim: Key): Cache {
    var c1 := Swept(if key in c.entries then Drop(c, key) else c, gone, held.finding.at);
    if LIMIT <= |c1.entries| && victim in c1.entries then Drop(c1, victim) else c1
  }

  /** The entry dropped to make room must be an oldest one of those left. */
  predicate MayStore(c: Cache, key: Key, held: Held, gone: set<Key>, victim: Key) {
    var c1 := Swept(if key in c.entries then Drop(c, key) else c, gone, held.finding.at);
    LIMIT <= |c1.entries| ==> Oldest(c1.entries, victim)
  }

  lemma RoomHandles(c: Cache, key: Key, held: Held, gone: set<Key>, victim: Key)
    requires Handles(c) && |c.entries| <= LIMIT && MayStore(c, key, held, gone, victim)
    ensures var c2 := MadeRoom(c, key, held, gone, victim);
            Handles(c2) && Lighter(c, c2) && |c2.entries| < LIMIT && key !in c2.entries
  {
    var c0 := if key in c.entries then Drop(c, key) else c;
    if key in c.entries {
      DropHandles(c, key);
    }
    var c1 := Swept(c0, gone, held.finding.at);
    SweptHandles(c0, gone, held.finding.at);
    LighterTrans(c, c0, c1);
    if LIMIT <= |c1.entries| {
      DropHandles(c1, victim);
      LighterTrans(c, c1, Drop(c1, victim));
    }
  }

  /** The new entry takes over the handle its caller held. */
  lemma JoinHandles(c: Cache, key: Key, held: Held, i: nat)
    requires Handles(c) && |c.entries| < LIMIT && key !in c.entries
    requires held.proc in c.open && c.open[held.proc] == ByCaller(i)
    ensures var c' := c.(entries := c.entries[key := held], open := c.open[held.proc := InEntry(key)]);
            Handles(c') && |c'.entries| <= LIMIT
  {
    var c' := c.(entries := c.entries[key := held], open := c.open[held.proc := InEntry(key)]);
    assert c'.entries.Keys == c.entries.Keys + {key};
    forall k | k in c'.entries
      ensures c'.entries[k].proc in c'.open && c'.open[c'.entries[k].proc] == InEntry(k)
    {
      if k != key {
        assert c.entries[k].proc in c.open && c.open[c.entries[k].proc] == InEntry(k);
      }
    }
  }

  // ---------------------------------------------------------------- callers

  datatype Result = Ok(finding: Finding) | Err

  /** Where the caller that verifies stands. */
  datatype Stage =
    | Verifying
    | Judged(finding: Finding)                   // verified, no handle yet
    | Holding(finding: Finding, h: Handle)       // a duplicate names the same process
    | Settled(result: Result)

  datatype Caller =
    | Start(key: Key)
    | Waiting(key: Key, worker: nat)
    | Working(key: Key, stage: Stage)
    | Done(key: Key, result: Result, worker: nat)

  /** A successful verification: of which process instance, image and mode, and what it found. */
  datatype Fact = Fact(key: Key, finding: Finding)

  datatype System = System(cache: Cache, clock: nat, next: Handle, callers: seq<Caller>, facts: set<Fact>,
                           starts: map<Handle, int>)  // when the process a duplicate names was started

  datatype Event =
    | Tick(d: nat)
    | Join(key: Key)
    | Look(i: nat)
    | Judge(i: nat, ok: bool, code: string, verdict: nat)
    | Duplicate(i: nat, ok: bool, started: Option<int>)  // the start time read through the duplicate
    | Store(i: nat, gone: set<Key>, victim: Key)
    | Report(i: nat)
    | Wake(i: nat)

  function Move(s: System, i: nat, c: Caller): System
    requires i < |s.callers|
  {
    s.(callers := s.callers[i := c])
  }

  function LookStep(s: System, i: nat): System
    requires i < |s.callers| && s.callers[i].Start?
  {
    var key := s.callers[i].key;
    var r := Lookup(s.cache, key, s.clock, i);
    var s' := s.(cache := r.0);
    match r.1
    case Hit(f) => Move(s', i, Done(key, Ok(f), i))
    case Wait(w) => Move(s', i, Waiting(key, w))
    case Verify => Move(s', i, Working(key, Verifying))
  }

  function WorkStep(s: System, i: nat, e: Event): System
    requires i < |s.callers| && s.callers[i].Working?
  {
    var key := s.callers[i].key;
    match (e, s.callers[i].stage)
    case (Judge(_, ok, code, verdict), Verifying) =>
      if ok then
        var f := Finding(code, verdict, s.clock);
        Move(s, i, Working(key, Judged(f))).(facts := s.facts + {Fact(key, f)})
      else Move(s, i, Working(key, Settled(Err)))
    case (Duplicate(_, ok, started), Judged(f)) =>
      var s1 := if ok && started.Some? then s.(starts := s.starts[s.next := started.value]) else s;
      if ok && started == Some(key.started) then
        Move(s1, i, Working(key, Holding(f, s.next))).(next := s.next + 1, cache := s.cache.(open := s.cache.open[s.next := ByCaller(i)]))
      else Move(s1, i, Working(key, Settled(Ok(f)))).(next := s.next + 1)
    case (Store(_, gone, victim), Holding(f, h)) =>
      if MayStore(s.cache, key, Held(h, f), gone, victim) then
        Move(s, i, Working(key, Settled(Ok(f)))).(cache := Keep(s.cache, key, Held(h, f), gone, victim))
      else s
    case (Report(_), Settled(r)) =>
      Move(s, i, Done(key, r, i)).(cache := Finish(s.cache, key))
    case _ => s
  }

  function Step(s: System, e: Event): System {
    match e
    case Tick(d) => s.(clock := s.clock + d)
    case Join(key) => s.(callers := s.callers + [Start(key)])
    case Look(i) => if i < |s.callers| && s.callers[i].Start? then LookStep(s, i) else s
    case Wake(i) =>
      if i < |s.callers| && s.callers[i].Waiting? then
        var w := s.callers[i].worker;
        if w < |s.callers| && s.callers[w].Done? then Move(s, i, Done(s.callers[i].key, s.callers[w].result, w)) else s
      else s
    case _ => if e.i < |s.callers| && s.callers[e.i].Working? then WorkStep(s, e.i, e) else s
  }

  // --------------------------------------------------------------- invariant

  predicate Known(facts: set<Fact>, clock: nat, key: Key, f: Finding) {
    Fact(key, f) in facts && f.at <= clock
  }

  predicate StageOk(s: System, i: nat, key: Key, stage: Stage) {
    match stage
    case Verifying => true
    case Judged(f) => Known(s.facts, s.clock, key, f)
    case Holding(f, h) => Known(s.facts, s.clock, key, f) && h in s.cache.open && s.cache.open[h] == ByCaller(i)
    case Settled(r) => r.Ok? ==> Known(s.facts, s.clock, key, r.finding)
  }

  predicate CallerOk(s: System, i: nat)
    requires i < |s.callers|
  {
    match s.callers[i]
    case Start(_) => true
    case Waiting(key, w) =>
      w < |s.callers| && s.callers[w].key == key && (s.callers[w].Working? || (s.callers[w].Done? && s.callers[w].worker == w))
    case Working(key, stage) => key in s.cache.working && s.cache.working[key] == i && StageOk(s, i, key, stage)
    case Done(key, r, w) =>
      && (r.Ok? ==> Known(s.facts, s.clock, key, r.finding))
      && w < |s.callers| && s.callers[w] == Done(key, r, w)
  }

  ghost predicate CallersOk(s: System) {
    && (forall i :: 0 <= i < |s.callers| ==> CallerOk(s, i))
    && (forall k :: k in s.cache.working ==> s.cache.working[k] < |s.callers| && s.callers[s.cache.working[k]].Working? && s.callers[s.cache.working[k]].key == k)
  }

  predicate EntriesKnown(entries: map<Key, Held>, facts: set<Fact>, clock: nat) {
    forall k :: k in entries ==> Known(facts, clock, k, entries[k].finding)
  }

  /** Handles are never reused, and a caller that holds one is about to store it. */
  predicate CallersHold(open: map<Handle, Owner>, next: Handle, callers: seq<Caller>) {
    && (forall h :: h in open ==> h < next)
    && (forall h :: h in open && open[h].ByCaller? ==> HeldBy(callers, open[h].i, h))
  }

  ghost predicate CacheOk(s: System) {
    && Handles(s.cache) && |s.cache.entries| <= LIMIT
    && EntriesKnown(s.cache.entries, s.facts, s.clock)
    && CallersHold(s.cache.open, s.next, s.callers)
  }

  predicate HeldBy(callers: seq<Caller>, i: nat, h: Handle) {
    i < |callers| && callers[i].Working? && callers[i].stage.Holding? && callers[i].stage.h == h
  }

  ghost predicate SystemOk(s: System) {
    CallersOk(s) && CacheOk(s)
  }

  const IDLE := System(Cache(map[], map[], map[]), 0, 0, [], {}, map[])

  /** A step that neither moves the clock nor touches a caller's own facts. */
  lemma MoveOthers(s: System, s': System, i: nat)
    requires CallersOk(s) && i < |s.callers| && |s'.callers| == |s.callers|
    requires forall j :: 0 <= j < |s.callers| && j != i ==> s'.callers[j] == s.callers[j]
    requires s'.callers[i].key == s.callers[i].key && !s.callers[i].Done?
    requires s.callers[i].Working? ==> s'.callers[i].Working? || (s'.callers[i].Done? && s'.callers[i].worker == i)
    requires s.clock <= s'.clock && s.facts <= s'.facts
    requires forall k :: k in s.cache.working && s.cache.working[k] != i ==> k in s'.cache.working && s'.cache.working[k] == s.cache.working[k]
    requires forall h :: h in s.cache.open && s.cache.open[h].ByCaller? && s.cache.open[h].i != i ==> h in s'.cache.open && s'.cache.open[h] == s.cache.open[h]
    ensures forall j :: 0 <= j < |s.callers| && j != i ==> CallerOk(s', j)
  {
    forall j | 0 <= j < |s.callers| && j != i
      ensures CallerOk(s', j)
    {
      assert CallerOk(s, j);
    }
  }

  lemma LookCallers(s: System, i: nat)
    requires CallersOk(s) && Handles(s.cache) && i < |s.callers| && s.callers[i].Start?
    requires EntriesKnown(s.cache.entries, s.facts, s.clock)
    ensures CallersOk(LookStep(s, i))
  {
    var key := s.callers[i].key;
    var r := Lookup(s.cache, key, s.clock, i);
    LookKeeps(s, key, i);
    match r.1
    case Hit(f) => LookedUp(s, r.0, i, Done(key, Ok(f), i));
    case Wait(w) => LookedUp(s, r.0, i, Waiting(key, w));
    case Verify => LookedUp(s, r.0, i, Working(key, Verifying));
  }

  /** What the first region does to what others rely on. */
  lemma LookKeeps(s: System, key: Key, i: nat)
    requires Handles(s.cache)
    ensures var c := Lookup(s.cache, key, s.clock, i).0;
            && (forall h :: h in s.cache.open && s.cache.open[h].ByCaller? ==> h in c.open && c.open[h] == s.cache.open[h])
            && c.working == (if Lookup(s.cache, key, s.clock, i).1.Verify? then s.cache.working[key := i] else s.cache.working)
            && (Lookup(s.cache, key, s.clock, i).1.Verify? ==> key !in s.cache.working)
  {
  }

  lemma LookedUp(s: System, c: Cache, i: nat, call: Caller)
    requires CallersOk(s) && i < |s.callers| && s.callers[i].Start? && call.key == s.callers[i].key && !call.Start?
    requires forall h :: h in s.cache.open && s.cache.open[h].ByCaller? ==> h in c.open && c.open[h] == s.cache.open[h]
    requires c.working == if call.Working? then s.cache.working[call.key := i] else s.cache.working
    requires match call
             case Done(key, r, w) => w == i && (r.Ok? ==> Known(s.facts, s.clock, key, r.finding))
             case Waiting(key, w) => key in s.cache.working && s.cache.working[key] == w
             case Working(key, stage) => key !in s.cache.working && stage.Verifying?
             case Start(_) => true
    ensures CallersOk(Move(s.(cache := c), i, call))
  {
    MoveOthers(s, Move(s.(cache := c), i, call), i);
  }

  /** Dropping an entry, and moving a caller that holds no handle to a place where it holds none. */
  lemma LighterCache(s: System, c: Cache, working: map<Key, nat>, i: nat, call: Caller)
    requires CacheOk(s) && i < |s.callers| && s.callers[i].Start? && Handles(c) && Lighter(s.cache, c)
    ensures CacheOk(Move(s.(cache := c.(working := working)), i, call))
  {
  }

  lemma LookCache(s: System, i: nat)
    requires CacheOk(s) && i < |s.callers| && s.callers[i].Start?
    ensures CacheOk(LookStep(s, i))
  {
    var key, s' := s.callers[i].key, LookStep(s, i);
    if key in s.cache.entries && !Fresh(s.cache.entries[key].finding, s.clock) {
      DropHandles(s.cache, key);
      LighterCache(s, Drop(s.cache, key), s'.cache.working, i, s'.callers[i]);
    } else {
      LighterCache(s, s.cache, s'.cache.working, i, s'.callers[i]);
    }
  }

  lemma WorkCallers(s: System, i: nat, e: Event)
    requires CallersOk(s) && i < |s.callers| && s.callers[i].Working? && !e.Store?
    requires forall h :: h in s.cache.open ==> h < s.next
    ensures CallersOk(WorkStep(s, i, e))
  {
    assert CallerOk(s, i);
    if e.Judge? {
      JudgeCallers(s, i, e);
    } else if e.Duplicate? {
      DuplicateCallers(s, i, e);
    } else {
      ReportCallers(s, i, e);
    }
  }

  lemma JudgeCallers(s: System, i: nat, e: Event)
    requires CallersOk(s) && i < |s.callers| && s.callers[i].Working? && CallerOk(s, i) && e.Judge?
    ensures CallersOk(WorkStep(s, i, e))
  {
    if s.callers[i].stage.Verifying? {
      MoveOthers(s, WorkStep(s, i, e), i);
    }
  }

  lemma DuplicateCallers(s: System, i: nat, e: Event)
    requires CallersOk(s) && i < |s.callers| && s.callers[i].Working? && CallerOk(s, i) && e.Duplicate?
    requires forall h :: h in s.cache.open ==> h < s.next
    ensures CallersOk(WorkStep(s, i, e))
  {
    if s.callers[i].stage.Judged? {
      MoveOthers(s, WorkStep(s, i, e), i);
    }
  }

  lemma ReportCallers(s: System, i: nat, e: Event)
    requires CallersOk(s) && i < |s.callers| && s.callers[i].Working? && CallerOk(s, i) && !e.Judge? && !e.Duplicate? && !e.Store?
    ensures CallersOk(WorkStep(s, i, e))
  {
    if e.Report? && s.callers[i].stage.Settled? {
      MoveOthers(s, WorkStep(s, i, e), i);
    }
  }

  lemma WorkCache(s: System, i: nat, e: Event)
    requires CacheOk(s) && i < |s.callers| && s.callers[i].Working? && !e.Store?
    ensures CacheOk(WorkStep(s, i, e))
  {
    if e.Duplicate? {
      DuplicateCache(s, i, e);
    } else {
      SameCache(s, WorkStep(s, i, e), i);
    }
  }

  /** A caller that holds no handle moves on; entries and open handles stay. */
  lemma SameCache(s: System, s': System, i: nat)
    requires CacheOk(s) && i < |s.callers| && s.facts <= s'.facts && s'.clock == s.clock && s'.next == s.next
    requires s'.cache.entries == s.cache.entries && s'.cache.open == s.cache.open
    requires s' == s || (s.callers[i].Working? && !s.callers[i].stage.Holding? && |s'.callers| == |s.callers| && s'.callers == s.callers[i := s'.callers[i]])
    ensures CacheOk(s')
  {
  }

  lemma DuplicateCache(s: System, i: nat, e: Event)
    requires CacheOk(s) && i < |s.callers| && s.callers[i].Working? && e.Duplicate?
    ensures CacheOk(WorkStep(s, i, e))
  {
    var s' := WorkStep(s, i, e);
    if s.callers[i].stage.Judged? {
      if e.ok && e.started == Some(s.callers[i].key.started) {
        HandleTaken(s, s', i, s.callers[i].key, s.callers[i].stage.finding);
      } else {
        HandleLeft(s, s', i);
      }
    }
  }

  /** The caller holds the new handle. */
  lemma HandleTaken(s: System, s': System, i: nat, key: Key, f: Finding)
    requires CacheOk(s) && i < |s.callers| && s.callers[i].Working? && !s.callers[i].stage.Holding?
    requires s'.callers == s.callers[i := Working(key, Holding(f, s.next))] && s'.next == s.next + 1
    requires s'.cache == s.cache.(open := s.cache.open[s.next := ByCaller(i)]) && s'.facts == s.facts && s'.clock == s.clock
    ensures CacheOk(s')
  {
  }

  /** It was closed again. */
  lemma HandleLeft(s: System, s': System, i: nat)
    requires CacheOk(s) && i < |s.callers| && s.callers[i].Working? && !s.callers[i].stage.Holding?
    requires |s'.callers| == |s.callers| && s'.callers == s.callers[i := s'.callers[i]] && s'.next == s.next + 1
    requires s'.cache == s.cache && s'.facts == s.facts && s'.clock == s.clock
    ensures CacheOk(s')
  {
  }

  lemma StoreCallers(s: System, s': System, i: nat)
    requires CallersOk(s) && i < |s.callers| && s.callers[i].Working? && s.callers[i].stage.Holding?
    requires s' == Move(s, i, Working(s.callers[i].key, Settled(Ok(s.callers[i].stage.finding)))).(cache := s'.cache)
    requires s'.cache.working == s.cache.working
    requires forall h :: h in s.cache.open && s.cache.open[h].ByCaller? && h != s.callers[i].stage.h ==> h in s'.cache.open && s'.cache.open[h] == s.cache.open[h]
    ensures CallersOk(s')
  {
    assert CallerOk(s, i);
    MoveOthers(s, s', i);
  }

  lemma StoreCache(s: System, s': System, i: nat, c2: Cache)
    requires EntriesKnown(s.cache.entries, s.facts, s.clock) && CallersHold(s.cache.open, s.next, s.callers)
    requires i < |s.callers| && s.callers[i].Working? && s.callers[i].stage.Holding?
    requires Known(s.facts, s.clock, s.callers[i].key, s.callers[i].stage.finding)
    requires Lighter(s.cache, c2) && s.callers[i].stage.h in s.cache.open
    requires s'.facts == s.facts && s'.clock == s.clock && s'.next == s.next
    requires s'.callers == s.callers[i := Working(s.callers[i].key, Settled(Ok(s.callers[i].stage.finding)))]
    requires s'.cache.entries == c2.entries[s.callers[i].key := Held(s.callers[i].stage.h, s.callers[i].stage.finding)]
    requires s'.cache.open == c2.open[s.callers[i].stage.h := InEntry(s.callers[i].key)]
    ensures EntriesKnown(s'.cache.entries, s.facts, s.clock) && CallersHold(s'.cache.open, s.next, s'.callers)
  {
  }

  lemma StoreKeeps(s: System, i: nat, e: Event)
    requires SystemOk(s) && i < |s.callers| && s.callers[i].Working? && e.Store?
    ensures SystemOk(WorkStep(s, i, e))
  {
    var key, stage := s.callers[i].key, s.callers[i].stage;
    if stage.Holding? && MayStore(s.cache, key, Held(stage.h, stage.finding), e.gone, e.victim) {
      assert CallerOk(s, i);
      var held := Held(stage.h, stage.finding);
      RoomHandles(s.cache, key, held, e.gone, e.victim);
      StoredOk(s, i, MadeRoom(s.cache, key, held, e.gone, e.victim));
      StoredIs(s, i, e);
    }
  }

  lemma StoredIs(s: System, i: nat, e: Event)
    requires i < |s.callers| && s.callers[i].Working? && s.callers[i].stage.Holding? && e.Store?
    requires MayStore(s.cache, s.callers[i].key, Held(s.callers[i].stage.h, s.callers[i].stage.finding), e.gone, e.victim)
    ensures WorkStep(s, i, e) ==
            Stored(s, i, MadeRoom(s.cache, s.callers[i].key, Held(s.callers[i].stage.h, s.callers[i].stage.finding), e.gone, e.victim))
  {
  }

  /** The system once the new entry has joined what is left of the cache. */
  function Stored(s: System, i: nat, c2: Cache): System
    requires i < |s.callers| && s.callers[i].Working? && s.callers[i].stage.Holding?
  {
    var key, f, h := s.callers[i].key, s.callers[i].stage.finding, s.callers[i].stage.h;
    Move(s, i, Working(key, Settled(Ok(f)))).(cache := c2.(entries := c2.entries[key := Held(h, f)], open := c2.open[h := InEntry(key)]))
  }

  lemma StoredOk(s: System, i: nat, c2: Cache)
    requires SystemOk(s) && i < |s.callers| && s.callers[i].Working? && s.callers[i].stage.Holding?
    requires CallerOk(s, i) && Handles(c2) && Lighter(s.cache, c2)
    requires |c2.entries| < LIMIT && s.callers[i].key !in c2.entries
    ensures SystemOk(Stored(s, i, c2))
  {
    var s' := Stored(s, i, c2);
    JoinHandles(c2, s.callers[i].key, Held(s.callers[i].stage.h, s.callers[i].stage.finding), i);
    StoreCallers(s, s', i);
    StoreCache(s, s', i, c2);
  }

  lemma WakeKeeps(s: System, i: nat)
    requires SystemOk(s)
    ensures SystemOk(Step(s, Wake(i)))
  {
    if i < |s.callers| && s.callers[i].Waiting? {
      assert CallerOk(s, i);
      var w := s.callers[i].worker;
      assert CallerOk(s, w);
      if s.callers[w].Done? {
        MoveOthers(s, Step(s, Wake(i)), i);
      }
    }
  }

  lemma ClockKeeps(s: System, s': System)
    requires SystemOk(s) && s'.cache == s.cache && s'.next == s.next && s'.facts == s.facts && s.clock <= s'.clock
    requires |s.callers| <= |s'.callers| && s'.callers[..|s.callers|] == s.callers
    requires forall i :: |s.callers| <= i < |s'.callers| ==> s'.callers[i].Start?
    ensures SystemOk(s')
  {
    assert forall i :: 0 <= i < |s.callers| ==> s.callers[i] == s'.callers[..|s.callers|][i] == s'.callers[i];
    forall i | 0 <= i < |s'.callers|
      ensures CallerOk(s', i)
    {
      if i < |s.callers| {
        assert CallerOk(s, i);
      }
    }
  }

  /** Every step, of any caller in any order, keeps the cache sound. */
  lemma StepKeeps(s: System, e: Event)
    requires SystemOk(s)
    ensures SystemOk(Step(s, e))
  {
    match e
    case Tick(d) => ClockKeeps(s, Step(s, e));
    case Join(key) => ClockKeeps(s, Step(s, e));
    case Look(i) =>
      if i < |s.callers| && s.callers[i].Start? {
        LookCallers(s, i);
        LookCache(s, i);
      }
    case Wake(i) => WakeKeeps(s, i);
    case Store(i, _, _) => if i < |s.callers| && s.callers[i].Working? { StoreKeeps(s, i, e); }
    case _ =>
      if e.i < |s.callers| && s.callers[e.i].Working? {
        WorkCallers(s, e.i, e);
        WorkCache(s, e.i, e);
      }
  }

  function Run(s: System, es: seq<Event>): System
    decreases |es|
  {
    if es == [] then s else Run(Step(s, es[0]), es[1..])
  }

  lemma {:induction false} RunKeeps(s: System, es: seq<Event>)
    requires SystemOk(s)
    ensures SystemOk(Run(s, es))
    decreases |es|
  {
    if es != [] {
      StepKeeps(s, es[0]);
      RunKeeps(Step(s, es[0]), es[1..]);
    }
  }

  /** At most one verification per key is in flight, in every run. */
  lemma SingleFlight(es: seq<Event>, i: nat, j: nat)
    requires var s := Run(IDLE, es);
             i < |s.callers| && j < |s.callers| && s.callers[i].Working? && s.callers[j].Working? && s.callers[i].key == s.callers[j].key
    ensures i == j
  {
    RunKeeps(IDLE, es);
    assert CallerOk(Run(IDLE, es), i) && CallerOk(Run(IDLE, es), j);
  }

  /** Every result handed out was found by a verification of that exact process
      instance, image and mode, and is the result of the caller that did it or
      found it in the cache: a waiter's is that of the caller it waited for. */
  lemma ResultsAreVerified(es: seq<Event>, i: nat)
    requires var s := Run(IDLE, es); i < |s.callers| && s.callers[i].Done?
    ensures var s := Run(IDLE, es);
            && (s.callers[i].result.Ok? ==> Fact(s.callers[i].key, s.callers[i].result.finding) in s.facts)
            && s.callers[i].worker < |s.callers| && s.callers[s.callers[i].worker] == s.callers[i]
  {
    RunKeeps(IDLE, es);
    assert CallerOk(Run(IDLE, es), i);
  }

  /** Where verifying a process instance, image and mode gives one answer, every
      result is that answer: reusing and sharing verdicts changes nothing. */
  lemma AgreesWithFresh(es: seq<Event>, truth: Key -> (string, nat), i: nat)
    requires var s := Run(IDLE, es);
             && i < |s.callers| && s.callers[i].Done? && s.callers[i].result.Ok?
             && forall f :: f in s.facts ==> (f.finding.code, f.finding.verdict) == truth(f.key)
    ensures var c := Run(IDLE, es).callers[i]; (c.result.finding.code, c.result.finding.verdict) == truth(c.key)
  {
    ResultsAreVerified(es, i);
  }

  /** A hit is a verified finding for its key, younger than the lifetime. */
  lemma HitsAreFresh(es: seq<Event>, key: Key, i: nat)
    requires var s := Run(IDLE, es); Lookup(s.cache, key, s.clock, i).1.Hit?
    ensures var s := Run(IDLE, es);
            var f := Lookup(s.cache, key, s.clock, i).1.finding;
            Fact(key, f) in s.facts && f.at <= s.clock < f.at + LIFETIME
  {
    RunKeeps(IDLE, es);
  }

  /** There are never more than 256 entries, each a verified finding, and each
      open handle is held by exactly one entry or by the caller about to store it. */
  lemma CacheIsBounded(es: seq<Event>)
    ensures var s := Run(IDLE, es);
            && |s.cache.entries| <= LIMIT && Handles(s.cache)
            && (forall k :: k in s.cache.entries ==> Fact(k, s.cache.entries[k].finding) in s.facts)
            && (forall h :: h in s.cache.open && s.cache.open[h].ByCaller? ==> HeldBy(s.callers, s.cache.open[h].i, h))
  {
    RunKeeps(IDLE, es);
  }

  // ------------------------------------------------------- whose handles are kept

  predicate StartedAt(starts: map<Handle, int>, h: Handle, t: int) {
    h in starts && starts[h] == t
  }

  /** Every handle kept, or about to be, names a process started when its key says. */
  predicate EntriesNamed(entries: map<Key, Held>, starts: map<Handle, int>) {
    forall k :: k in entries ==> StartedAt(starts, entries[k].proc, k.started)
  }

  predicate CallerNamed(c: Caller, starts: map<Handle, int>) {
    c.Working? && c.stage.Holding? ==> StartedAt(starts, c.stage.h, c.key.started)
  }

  ghost predicate Named(s: System) {
    && EntriesNamed(s.cache.entries, s.starts)
    && forall i :: 0 <= i < |s.callers| ==> CallerNamed(s.callers[i], s.starts)
  }

  lemma LookNamed(s: System, i: nat)
    requires Named(s) && i < |s.callers| && s.callers[i].Start?
    ensures Named(LookStep(s, i))
  {
  }

  lemma DuplicateNamed(s: System, i: nat, e: Event)
    requires SystemOk(s) && Named(s) && i < |s.callers| && s.callers[i].Working? && e.Duplicate?
    ensures Named(WorkStep(s, i, e))
  {
    forall j | 0 <= j < |s.callers|
      ensures s.callers[j].Working? && s.callers[j].stage.Holding? ==> s.callers[j].stage.h < s.next
    {
      assert CallerOk(s, j);
    }
  }

  lemma StoreNamed(s: System, i: nat, e: Event)
    requires Named(s) && i < |s.callers| && s.callers[i].Working? && e.Store?
    ensures Named(WorkStep(s, i, e))
  {
    assert CallerNamed(s.callers[i], s.starts);
  }

  lemma OtherNamed(s: System, i: nat, e: Event)
    requires Named(s) && i < |s.callers| && s.callers[i].Working? && !e.Store? && !e.Duplicate?
    ensures Named(WorkStep(s, i, e))
  {
  }

  lemma NamedKeeps(s: System, e: Event)
    requires SystemOk(s) && Named(s)
    ensures Named(Step(s, e))
  {
    match e
    case Look(i) => if i < |s.callers| && s.callers[i].Start? { LookNamed(s, i); }
    case Store(i, _, _) => if i < |s.callers| && s.callers[i].Working? { StoreNamed(s, i, e); }
    case Duplicate(i, _, _) => if i < |s.callers| && s.callers[i].Working? { DuplicateNamed(s, i, e); }
    case Judge(i, _, _, _) => if i < |s.callers| && s.callers[i].Working? { OtherNamed(s, i, e); }
    case Report(i) => if i < |s.callers| && s.callers[i].Working? { OtherNamed(s, i, e); }
    case _ =>
  }

  lemma {:induction false} NamedRun(s: System, es: seq<Event>)
    requires SystemOk(s) && Named(s)
    ensures Named(Run(s, es))
    decreases |es|
  {
    if es != [] {
      StepKeeps(s, es[0]);
      NamedKeeps(s, es[0]);
      NamedRun(Step(s, es[0]), es[1..]);
    }
  }

  /** In every run, the handle an entry holds was read to name a process started when the
      entry's key says: the instance that was verified. */
  lemma HandlesNameTheProcess(es: seq<Event>, k: Key)
    requires k in Run(IDLE, es).cache.entries
    ensures var s := Run(IDLE, es);
            s.cache.entries[k].proc in s.starts && s.starts[s.cache.entries[k].proc] == k.started
  {
    NamedRun(IDLE, es);
  }

  // --------------------------------------------------------- what is found, and kept

  /** A verdict is found exactly if there is an entry not yet five minutes old; else the
      caller waits for a verification in flight, or begins one. */
  lemma FoundExactly(c: Cache, key: Key, now: nat, i: nat)
    ensures var r := Lookup(c, key, now, i);
            && (r.1.Hit? <==> key in c.entries && c.entries[key].finding.at <= now < c.entries[key].finding.at + 300_000_000_000)
            && (r.1.Hit? ==> r.1.finding == c.entries[key].finding && r.0 == c)
            && (r.1.Wait? <==> !r.1.Hit? && key in c.working) && (r.1.Wait? ==> r.1.worker == c.working[key])
            && (r.1.Verify? ==> key in r.0.working && r.0.working[key] == i)
            && (forall k :: k in c.entries && k != key ==> k in r.0.entries && r.0.entries[k] == c.entries[k])
  {
  }

  /** Storing a verdict drops no entry but its own old one, those whose process is gone or
      whose time is up, and, where there would be more than 256, one oldest. */
  lemma DropsOnly(c: Cache, key: Key, held: Held, gone: set<Key>, victim: Key, k: Key)
    requires k in c.entries && k != key
    ensures var c' := Keep(c, key, held, gone, victim);
            var alive := set j | j in c.entries && j != key && j !in gone
                              && c.entries[j].finding.at <= held.finding.at < c.entries[j].finding.at + 300_000_000_000;
            && (k in c'.entries <==> k in alive && !(256 <= |alive| && k == victim))
            && (k in c'.entries ==> c'.entries[k] == c.entries[k])
            && key in c'.entries && c'.entries[key] == held
  {
    var c0 := if key in c.entries then Drop(c, key) else c;
    var c1 := Swept(c0, gone, held.finding.at);
    var alive := set j | j in c.entries && j != key && j !in gone
                      && c.entries[j].finding.at <= held.finding.at < c.entries[j].finding.at + 300_000_000_000;
    assert c1.entries.Keys == alive;
    assert |c1.entries| == |c1.entries.Keys|;
  }

  /** What one caller stores, another finds: without a verification of its own, for as
      long as it is young enough and nothing drops it. */
  lemma StoredIsShared(s: System, i: nat, j: nat, gone: set<Key>, victim: Key, d: nat)
    requires i < |s.callers| && j < |s.callers| && s.callers[i].Working? && s.callers[i].stage.Holding?
    requires s.callers[j] == Start(s.callers[i].key) && s.clock + d < s.callers[i].stage.finding.at + 300_000_000_000
    requires s.callers[i].stage.finding.at <= s.clock
    requires MayStore(s.cache, s.callers[i].key, Held(s.callers[i].stage.h, s.callers[i].stage.finding), gone, victim)
    ensures var s1 := Step(s, Store(i, gone, victim));
            var s2 := Step(Step(s1, Tick(d)), Look(j));
            && s1.callers[i] == Working(s.callers[i].key, Settled(Ok(s.callers[i].stage.finding)))
            && s2.callers[j] == Done(s.callers[j].key, Ok(s.callers[i].stage.finding), j)
            && s2.facts == s.facts && s2.cache == s1.cache
  {
  }

  // ------------------------------------------------------------- the object

  /** The global the source keeps, with its two maps updated in place. */
  class VerdictCache {
    var entries: map<Key, Held>
    var working: map<Key, nat>
    ghost var open: map<Handle, Owner>

    constructor ()
      ensures Contents() == Cache(map[], map[], map[])
    {
      entries, working, open := map[], map[], map[];
    }

    ghost function Contents(): Cache
      reads this
    {
      Cache(entries, working, open)
    }

    method DropVerdict(key: Key)
      requires key in entries
      modifies this`entries, this`open
      ensures Contents() == Drop(old(Contents()), key)
    {
      open := open - {entries[key].proc};
      entries := entries - {key};
    }

    method LookUp(key: Key, now: nat, i: nat) returns (found: Found)
      modifies this
      ensures (Contents(), found) == Lookup(old(Contents()), key, now, i)
    {
      if key in entries {
        if Fresh(entries[key].finding, now) {
          return Hit(entries[key].finding);
        }
        DropVerdict(key);
      }
      if key in working {
        return Wait(working[key]);
      }
      working := working[key := i];
      found := Verify;
    }

    /** The loop that drops every entry whose process is gone or whose age is out
        of bounds, and finds an oldest one of those left. */
    method Sweep(gone: set<Key>, now: nat) returns (oldest: Key)
      requires Handles(Contents())
      modifies this`entries, this`open
      ensures Contents() == Swept(old(Contents()), gone, now)
      ensures entries != map[] ==> Oldest(entries, oldest)
    {
      ghost var c := Contents();
      var left := entries.Keys;
      var found := false;
      oldest := Key(0, 0, "", false);
      while left != {}
        invariant left <= entries.Keys <= c.entries.Keys && working == c.working
        invariant forall k :: k in entries ==> entries[k] == c.entries[k]
        invariant forall k :: k in c.entries ==> (k in entries <==> k in left || Stays(c.entries, gone, now, k))
        invariant open == Left(c, entries)
        invariant if found then oldest in entries && oldest !in left else forall k :: k in entries ==> k in left
        invariant found ==> forall k :: k in entries && k !in left ==> entries[oldest].finding.at <= entries[k].finding.at
        decreases |left|
      {
        var k :| k in left;
        left := left - {k};
        if k in gone || !Fresh(entries[k].finding, now) {
          LeftDrop(c, entries, k);
          DropVerdict(k);
        } else if !found || entries[k].finding.at < entries[oldest].finding.at {
          oldest, found := k, true;
        }
      }
      SweptAll(c, entries, gone, now);
    }

    method KeepVerdict(key: Key, held: Held, gone: set<Key>) returns (ghost victim: Key)
      requires Handles(Contents()) && |entries| <= LIMIT
      modifies this`entries, this`open
      ensures MayStore(old(Contents()), key, held, gone, victim)
      ensures Contents() == Keep(old(Contents()), key, held, gone, victim)
    {
      if key in entries {
        DropHandles(Contents(), key);
        DropVerdict(key);
      }
      var oldest := Sweep(gone, held.finding.at);
      victim := oldest;
      if LIMIT <= |entries| {
        assert entries != map[];
        DropVerdict(oldest);
      }
      entries := entries[key := held];
      open := open[held.proc := InEntry(key)];
    }

    method Report(key: Key)
      modifies this`working
      ensures Contents() == Finish(old(Contents()), key)
    {
      working := working - {key};
    }
  }

  /** The handles still open once only these entries are left. */
  function Left(c: Cache, entries: map<Key, Held>): map<Handle, Owner> {
    map h | h in c.open && !(c.open[h].InEntry? && c.open[h].key in c.entries && c.open[h].key !in entries) :: c.open[h]
  }

  /** Once every entry was looked at, what is left is what stays. */
  lemma SweptAll(c: Cache, entries: map<Key, Held>, gone: set<Key>, now: nat)
    requires entries.Keys <= c.entries.Keys && forall k :: k in entries ==> entries[k] == c.entries[k]
    requires forall k :: k in c.entries ==> (k in entries <==> Stays(c.entries, gone, now, k))
    ensures Swept(c, gone, now) == c.(entries := entries, open := Left(c, entries))
  {
    assert entries == Swept(c, gone, now).entries;
    assert Left(c, entries) == Swept(c, gone, now).open;
  }

  lemma LeftDrop(c: Cache, entries: map<Key, Held>, k: Key)
    requires Handles(c) && k in entries && k in c.entries && entries[k] == c.entries[k]
    ensures Left(c, entries - {k}) == Left(c, entries) - {entries[k].proc}
  {
  }
}
