/** The write-and-clear protocol of `frontend/public/sw.js` as a state machine.
  *
  * JavaScript runs one turn at a time, so a step is the code between two awaits.
  * A write task is queued behind the previous task of its cache; a clear message
  * bumps the generation, waits for the tails of all chains, deletes every cache,
  * looks again and deletes once more. Any number of clears may overlap.
  *
  * A cache has an identity of its own: `caches.delete` unlinks the name, and a task
  * that opened the cache before goes on writing to the unlinked object. */
module SwProtocol {
  import opened Common
  import opened SwCache

  datatype CacheObject = CacheObject(name: string, entries: seq<Entry>)

  datatype TaskPhase =
    | Queued                    // behind its predecessor in the chain
    | OpeningToPut              // passed the generation check
    | Putting(cache: nat)
    | OpeningToLimit            // written, or found not cacheable
    | Limiting(cache: nat)
    | Settled

  datatype Task = Task(write: Write, name: string, maxSize: nat, maxAge: nat,
                       previous: Option<nat>, phase: TaskPhase, cleaned: bool)

  datatype ClearPhase =
    | Waiting
    | Deleting(again: bool, names: set<string>)
    | Reported(success: bool)
    | Done(success: bool)

  datatype Clear = Clear(generation: nat, awaited: set<nat>, phase: ClearPhase)

  datatype State = State(
    cacheWrites: map<string, nat>,   // the last task of each chain
    cacheGeneration: nat,
    cacheClearing: bool,
    storage: map<string, nat>,       // CacheStorage: name to cache object
    caches: seq<CacheObject>,
    tasks: seq<Task>,
    clears: seq<Clear>)

  datatype Step =
    | Schedule(key: string, isGet: bool, status: nat, name: string, maxSize: nat, maxAge: nat)
    | StartTask(t: nat)
    | OpenToPut(t: nat)
    | Put(t: nat, now: int)
    | OpenToLimit(t: nat)
    | Limit(t: nat, clock: seq<int>)
    | FailTask(t: nat)               // an awaited operation rejected; the catch settles the task
    | Cleanup(t: nat)                // the finally that drops a settled tail
    | StartClear
    | ListCaches(c: nat)             // caches.keys(), first or second time
    | DeleteCache(c: nat, name: string)
    | Report(c: nat)
    | FailClear(c: nat)
    | FinishClear(c: nat)
    | StrayDelete(name: string)      // a delete left in flight by a failed clear

  // ---------- the steps ----------

  predicate IsTask(s: State, t: nat, phase: TaskPhase) {
    t < |s.tasks| && s.tasks[t].phase == phase
  }

  predicate IsSettled(s: State, t: nat) {
    t < |s.tasks| && s.tasks[t].phase.Settled?
  }

  predicate Active(phase: TaskPhase) {
    !phase.Queued? && !phase.Settled?
  }

  predicate Enabled(s: State, step: Step) {
    match step
    case Schedule(_, _, _, _, _, _) => true
    case StartTask(t) =>
      && IsTask(s, t, Queued)
      && (s.tasks[t].previous.Some? ==> IsSettled(s, s.tasks[t].previous.value))
    case OpenToPut(t) => IsTask(s, t, OpeningToPut)
    case Put(t, _) => t < |s.tasks| && s.tasks[t].phase.Putting? && s.tasks[t].phase.cache < |s.caches|
    case OpenToLimit(t) => IsTask(s, t, OpeningToLimit)
    case Limit(t, clock) =>
      && t < |s.tasks| && s.tasks[t].phase.Limiting? && s.tasks[t].phase.cache < |s.caches|
      && |s.caches[s.tasks[t].phase.cache].entries| <= |clock|
    case FailTask(t) => t < |s.tasks| && Active(s.tasks[t].phase)
    case Cleanup(t) => IsTask(s, t, Settled) && !s.tasks[t].cleaned
    case StartClear => true
    case ListCaches(c) =>
      && c < |s.clears|
      && (s.clears[c].phase == Deleting(false, {})
          || (s.clears[c].phase.Waiting? && forall t :: t in s.clears[c].awaited ==> IsSettled(s, t)))
    case DeleteCache(c, name) =>
      c < |s.clears| && s.clears[c].phase.Deleting? && name in s.clears[c].phase.names
    case Report(c) => c < |s.clears| && s.clears[c].phase == Deleting(true, {})
    case FailClear(c) =>
      c < |s.clears| && (s.clears[c].phase.Waiting? || s.clears[c].phase.Deleting?)
    case FinishClear(c) => c < |s.clears| && s.clears[c].phase.Reported?
    case StrayDelete(_) => true
  }

  function WithPhase(s: State, t: nat, phase: TaskPhase): State
    requires t < |s.tasks|
  {
    s.(tasks := s.tasks[t := s.tasks[t].(phase := phase)])
  }

  function WithEntries(s: State, h: nat, entries: seq<Entry>): State
    requires h < |s.caches|
  {
    s.(caches := s.caches[h := s.caches[h].(entries := entries)])
  }

  function WithClear(s: State, c: nat, phase: ClearPhase): State
    requires c < |s.clears|
  {
    s.(clears := s.clears[c := s.clears[c].(phase := phase)])
  }

  /** `caches.open`: links a new empty cache when the name has none. */
  function Opened(s: State, name: string): State {
    if name in s.storage then s
    else s.(storage := s.storage[name := |s.caches|], caches := s.caches + [CacheObject(name, [])])
  }

  function Scheduled(s: State, key: string, isGet: bool, status: nat, name: string, maxSize: nat, maxAge: nat): State {
    if s.cacheClearing then s
    else
      var previous := if name in s.cacheWrites then Some(s.cacheWrites[name]) else None;
      var task := Task(Write(isGet, status, key, s.cacheGeneration), name, maxSize, maxAge, previous, Queued, false);
      s.(tasks := s.tasks + [task], cacheWrites := s.cacheWrites[name := |s.tasks|])
  }

  function Started(s: State, t: nat): State
    requires t < |s.tasks|
  {
    var task := s.tasks[t];
    if task.write.generation != s.cacheGeneration then WithPhase(s, t, Settled)
    else if Cacheable(task.write) then WithPhase(s, t, OpeningToPut)
    else WithPhase(s, t, OpeningToLimit)
  }

  function Written(s: State, t: nat, now: int): State
    requires t < |s.tasks| && s.tasks[t].phase.Putting? && s.tasks[t].phase.cache < |s.caches|
  {
    var h := s.tasks[t].phase.cache;
    var e := Entry(s.tasks[t].write.key, At(now), s.tasks[t].write.generation);
    WithEntries(WithPhase(s, t, OpeningToLimit), h, PutEntry(s.caches[h].entries, e))
  }

  function Evicted(s: State, t: nat, clock: seq<int>): State
    requires t < |s.tasks| && s.tasks[t].phase.Limiting? && s.tasks[t].phase.cache < |s.caches|
    requires |s.caches[s.tasks[t].phase.cache].entries| <= |clock|
  {
    var h := s.tasks[t].phase.cache;
    WithEntries(WithPhase(s, t, Settled), h,
                Limited(s.caches[h].entries, s.tasks[t].maxSize, s.tasks[t].maxAge, clock))
  }

  function CleanedUp(s: State, t: nat): State
    requires t < |s.tasks|
  {
    var name := s.tasks[t].name;
    var marked := s.(tasks := s.tasks[t := s.tasks[t].(cleaned := true)]);
    if name in s.cacheWrites && s.cacheWrites[name] == t
    then marked.(cacheWrites := s.cacheWrites - {name})
    else marked
  }

  function ClearStarted(s: State): State {
    var awaited := set name | name in s.cacheWrites :: s.cacheWrites[name];
    s.(cacheGeneration := s.cacheGeneration + 1,
       cacheClearing := true,
       clears := s.clears + [Clear(s.cacheGeneration + 1, awaited, Waiting)])
  }

  function Finished(s: State, c: nat): State
    requires c < |s.clears| && s.clears[c].phase.Reported?
  {
    var done := WithClear(s, c, Done(s.clears[c].phase.success));
    if s.clears[c].generation == s.cacheGeneration then done.(cacheClearing := false) else done
  }

  function Apply(s: State, step: Step): State
    requires Enabled(s, step)
  {
    match step
    case Schedule(key, isGet, status, name, maxSize, maxAge) => Scheduled(s, key, isGet, status, name, maxSize, maxAge)
    case StartTask(t) => Started(s, t)
    case OpenToPut(t) =>
      var o := Opened(s, s.tasks[t].name);
      WithPhase(o, t, Putting(o.storage[s.tasks[t].name]))
    case Put(t, now) => Written(s, t, now)
    case OpenToLimit(t) =>
      var o := Opened(s, s.tasks[t].name);
      WithPhase(o, t, Limiting(o.storage[s.tasks[t].name]))
    case Limit(t, clock) => Evicted(s, t, clock)
    case FailTask(t) => WithPhase(s, t, Settled)
    case Cleanup(t) => CleanedUp(s, t)
    case StartClear => ClearStarted(s)
    case ListCaches(c) => WithClear(s, c, Deleting(s.clears[c].phase.Deleting?, s.storage.Keys))
    case DeleteCache(c, name) =>
      var phase := s.clears[c].phase;
      WithClear(s, c, phase.(names := phase.names - {name})).(storage := s.storage - {name})
    case Report(c) => WithClear(s, c, Reported(true))
    case FailClear(c) => WithClear(s, c, Reported(false))
    case FinishClear(c) => Finished(s, c)
    case StrayDelete(name) => s.(storage := s.storage - {name})
  }

  // ---------- runs ----------

  /** Before the first event: no task, no clear, and whatever the precache or an earlier life
    * of the worker left in the caches, under any tags. Tagged zero, which is older than
    * every clear, such entries are gone once a clear has succeeded. */
  ghost predicate Init(s: State) {
    && s.cacheWrites == map[] && s.cacheGeneration == 0 && !s.cacheClearing
    && s.tasks == [] && s.clears == []
    && LinksInv(s.storage, s.caches) && KeysInv(s.caches)
  }

  ghost predicate IsRun(s: State, steps: seq<Step>)
    decreases |steps|
  {
    steps != [] ==> Enabled(s, steps[0]) && IsRun(Apply(s, steps[0]), steps[1..])
  }

  ghost function After(s: State, steps: seq<Step>): State
    requires IsRun(s, steps)
    decreases |steps|
  {
    if steps == [] then s else After(Apply(s, steps[0]), steps[1..])
  }

  // ---------- invariants ----------

  type Chains = map<string, nat>

  predicate IsTail(writes: Chains, tasks: seq<Task>, t: nat) {
    t < |tasks| && tasks[t].name in writes && writes[tasks[t].name] == t
  }

  /** The map holds the last task of each chain until that task has settled and
    * cleaned up after itself. */
  ghost predicate ChainInv(writes: Chains, tasks: seq<Task>) {
    && (forall name :: name in writes ==> writes[name] < |tasks| && tasks[writes[name]].name == name)
    && (forall t :: 0 <= t < |tasks| && tasks[t].cleaned ==> tasks[t].phase.Settled? && !IsTail(writes, tasks, t))
    && (forall t, u :: 0 <= t < u < |tasks| && tasks[t].name == tasks[u].name ==> !IsTail(writes, tasks, t))
    && (forall t :: 0 <= t < |tasks| && !tasks[t].phase.Settled? ==> tasks[t].name in writes)
  }

  /** Of two tasks of one cache, the earlier has settled or the later is still queued
    * behind it: write tasks of one cache never overlap. */
  ghost predicate PreviousInv(tasks: seq<Task>) {
    forall t, u :: 0 <= t < u < |tasks| && tasks[t].name == tasks[u].name ==> tasks[t].phase.Settled? || Behind(tasks, t, u)
  }

  predicate Behind(tasks: seq<Task>, t: nat, u: nat)
    requires t < u < |tasks|
  {
    && tasks[u].phase.Queued? && tasks[u].previous.Some?
    && t <= tasks[u].previous.value < u && tasks[tasks[u].previous.value].name == tasks[u].name
  }

  ghost predicate LinksInv(storage: map<string, nat>, caches: seq<CacheObject>) {
    forall name :: name in storage ==> storage[name] < |caches| && caches[storage[name]].name == name
  }

  predicate Holds(phase: TaskPhase, h: nat) {
    phase == Putting(h) || phase == Limiting(h)
  }

  /** A task's handle is a cache of its own name, and the linked one if the name is linked. */
  ghost predicate HandlesInv(storage: map<string, nat>, caches: seq<CacheObject>, tasks: seq<Task>) {
    forall t, h :: 0 <= t < |tasks| && Holds(tasks[t].phase, h) ==> GoodHandle(storage, caches, tasks[t].name, h)
  }

  predicate GoodHandle(storage: map<string, nat>, caches: seq<CacheObject>, name: string, h: nat) {
    h < |caches| && caches[h].name == name && (name in storage ==> storage[name] == h)
  }

  /** The k-th clear carries generation k + 1, and the flag is up exactly while the
    * clear of the current generation is in flight. */
  ghost predicate ClearsInv(generation: nat, clearing: bool, clears: seq<Clear>) {
    && generation == |clears|
    && (forall c :: 0 <= c < |clears| ==> clears[c].generation == c + 1)
    && (clearing <==> clears != [] && !clears[|clears| - 1].phase.Done?)
  }

  ghost predicate BornInv(generation: nat, tasks: seq<Task>) {
    forall t :: 0 <= t < |tasks| ==> tasks[t].write.generation <= generation
  }

  /** While a clear waits, every older unsettled task is at or before an awaited one of
    * its own chain; afterwards no older task is unsettled, unless the clear failed. */
  ghost predicate AwaitedInv(tasks: seq<Task>, clears: seq<Clear>) {
    forall c, t :: 0 <= c < |clears| && 0 <= t < |tasks| ==> Accounted(tasks, t, clears[c])
  }

  ghost predicate Accounted(tasks: seq<Task>, t: nat, clear: Clear)
    requires t < |tasks|
  {
    tasks[t].write.generation < clear.generation && !tasks[t].phase.Settled? ==>
      Failed(clear.phase) || (clear.phase.Waiting? && Covered(tasks, t, clear.awaited))
  }

  predicate Failed(phase: ClearPhase) {
    phase == Reported(false) || phase == Done(false)
  }

  ghost predicate Covered(tasks: seq<Task>, t: nat, awaited: set<nat>)
    requires t < |tasks|
  {
    exists w :: w in awaited && t <= w < |tasks| && tasks[w].name == tasks[t].name
  }

  /** The list holds an entry whose write was scheduled under a generation below `g`. */
  ghost predicate Stale(entries: seq<Entry>, g: nat) {
    exists e :: e in entries && e.generation < g
  }

  /** What a clear has listed covers every cache with an older entry; once it has
    * reported success there is none. */
  ghost predicate StaleInv(storage: map<string, nat>, caches: seq<CacheObject>, clears: seq<Clear>)
    requires LinksInv(storage, caches)
  {
    forall c, name :: 0 <= c < |clears| && name in storage && Stale(caches[storage[name]].entries, clears[c].generation)
      ==> MayRemain(clears[c].phase, name)
  }

  predicate MayRemain(phase: ClearPhase, name: string) {
    match phase
    case Waiting => true
    case Deleting(_, names) => name in names
    case Reported(success) => !success
    case Done(success) => !success
  }

  ghost predicate KeysInv(caches: seq<CacheObject>) {
    forall h :: 0 <= h < |caches| ==> UniqueKeys(caches[h].entries)
  }

  ghost predicate TasksInv(s: State) {
    ChainInv(s.cacheWrites, s.tasks) && PreviousInv(s.tasks) && BornInv(s.cacheGeneration, s.tasks)
  }

  ghost predicate CachesInv(s: State) {
    LinksInv(s.storage, s.caches) && KeysInv(s.caches) && HandlesInv(s.storage, s.caches, s.tasks)
  }

  ghost predicate ClearingInv(s: State)
    requires LinksInv(s.storage, s.caches)
  {
    && ClearsInv(s.cacheGeneration, s.cacheClearing, s.clears)
    && AwaitedInv(s.tasks, s.clears) && StaleInv(s.storage, s.caches, s.clears)
  }

  ghost predicate Inv(s: State) {
    TasksInv(s) && CachesInv(s) && ClearingInv(s)
  }

  // ---------- every step keeps them ----------

  /** At most one task of a cache is running. */
  lemma SoleActive(tasks: seq<Task>, t: nat, u: nat)
    requires PreviousInv(tasks) && t < |tasks| && u < |tasks| && tasks[t].name == tasks[u].name
    requires Active(tasks[t].phase) && Active(tasks[u].phase)
    ensures t == u
  {
  }

  /** Once a task of a chain has settled, so have all before it. */
  lemma SettledBefore(tasks: seq<Task>, t: nat, w: nat)
    requires PreviousInv(tasks) && t <= w < |tasks| && tasks[t].name == tasks[w].name && tasks[w].phase.Settled?
    ensures tasks[t].phase.Settled?
  {
  }

  lemma TailIsLast(writes: Chains, tasks: seq<Task>, t: nat)
    requires ChainInv(writes, tasks) && t < |tasks| && tasks[t].name in writes
    ensures t <= writes[tasks[t].name] < |tasks| && tasks[writes[tasks[t].name]].name == tasks[t].name
  {
    assert IsTail(writes, tasks, writes[tasks[t].name]);
  }

  predicate MayAdvance(s: State, t: nat, phase: TaskPhase) {
    && t < |s.tasks| && !s.tasks[t].phase.Settled? && !phase.Queued?
    && (s.tasks[t].phase.Queued? && s.tasks[t].previous.Some? ==> IsSettled(s, s.tasks[t].previous.value))
    && (phase.Putting? || phase.Limiting? ==> GoodHandle(s.storage, s.caches, s.tasks[t].name, phase.cache))
  }

  lemma AdvanceKeepsTasks(s: State, t: nat, phase: TaskPhase)
    requires Inv(s) && MayAdvance(s, t, phase)
    ensures TasksInv(WithPhase(s, t, phase))
  {
    var tasks' := WithPhase(s, t, phase).tasks;
    forall x, u | 0 <= x < u < |tasks'| && tasks'[x].name == tasks'[u].name
      ensures tasks'[x].phase.Settled? || Behind(tasks', x, u)
    {
      if u == t && s.tasks[t].phase.Queued? && !s.tasks[x].phase.Settled? {
        assert Behind(s.tasks, x, t);
        SettledBefore(s.tasks, x, s.tasks[t].previous.value);
      }
    }
    forall x | 0 <= x < |tasks'| ensures IsTail(s.cacheWrites, tasks', x) == IsTail(s.cacheWrites, s.tasks, x) {}
  }

  lemma AdvanceKeepsRest(s: State, t: nat, phase: TaskPhase)
    requires Inv(s) && MayAdvance(s, t, phase)
    ensures CachesInv(WithPhase(s, t, phase)) && ClearingInv(WithPhase(s, t, phase))
  {
    var tasks' := WithPhase(s, t, phase).tasks;
    forall c, x | 0 <= c < |s.clears| && 0 <= x < |tasks'| ensures Accounted(tasks', x, s.clears[c]) {
      assert Accounted(s.tasks, x, s.clears[c]);
      if Covered(s.tasks, x, s.clears[c].awaited) {
        var w :| w in s.clears[c].awaited && x <= w < |s.tasks| && s.tasks[w].name == s.tasks[x].name;
        assert tasks'[w].name == tasks'[x].name;
      }
    }
  }

  lemma AdvanceKeeps(s: State, t: nat, phase: TaskPhase)
    requires Inv(s) && MayAdvance(s, t, phase)
    ensures Inv(WithPhase(s, t, phase))
  {
    AdvanceKeepsTasks(s, t, phase);
    AdvanceKeepsRest(s, t, phase);
  }

  lemma OpenKeeps(s: State, t: nat)
    requires Inv(s) && t < |s.tasks| && Active(s.tasks[t].phase) && !s.tasks[t].phase.Putting? && !s.tasks[t].phase.Limiting?
    ensures Inv(Opened(s, s.tasks[t].name))
    ensures var o := Opened(s, s.tasks[t].name);
            s.tasks[t].name in o.storage && GoodHandle(o.storage, o.caches, s.tasks[t].name, o.storage[s.tasks[t].name])
  {
    var name := s.tasks[t].name;
    var o := Opened(s, name);
    if name !in s.storage {
      forall u, h | 0 <= u < |s.tasks| && Holds(s.tasks[u].phase, h)
        ensures GoodHandle(o.storage, o.caches, s.tasks[u].name, h)
      {
        assert GoodHandle(s.storage, s.caches, s.tasks[u].name, h);
        if s.tasks[u].name == name {
          SoleActive(s.tasks, t, u);
        }
      }
      assert o.caches[o.storage[name]].entries == [];
      forall n | n in s.storage ensures o.caches[o.storage[n]] == s.caches[s.storage[n]] {}
    }
  }

  /** Replacing the entries of one cache, when whatever is stale for a clear that has
    * waited out its tasks was there before. */
  lemma EntriesKeep(s: State, h: nat, entries: seq<Entry>)
    requires Inv(s) && h < |s.caches| && UniqueKeys(entries)
    requires forall c :: 0 <= c < |s.clears| && Stale(entries, s.clears[c].generation) ==>
               s.clears[c].phase.Waiting? || Failed(s.clears[c].phase) || Stale(s.caches[h].entries, s.clears[c].generation)
    ensures Inv(WithEntries(s, h, entries))
  {
    var s' := WithEntries(s, h, entries);
    forall t, k | 0 <= t < |s.tasks| && Holds(s.tasks[t].phase, k)
      ensures GoodHandle(s'.storage, s'.caches, s.tasks[t].name, k)
    {
      assert GoodHandle(s.storage, s.caches, s.tasks[t].name, k);
    }
    forall c, name | 0 <= c < |s.clears| && name in s.storage && Stale(s'.caches[s.storage[name]].entries, s.clears[c].generation)
      ensures MayRemain(s.clears[c].phase, name)
    {
      if s.storage[name] != h {
        assert Stale(s.caches[s.storage[name]].entries, s.clears[c].generation);
      }
    }
  }

  lemma PutKeeps(s: State, t: nat, now: int)
    requires Inv(s) && Enabled(s, Put(t, now))
    ensures Inv(Written(s, t, now))
  {
    var task := s.tasks[t];
    var h := task.phase.cache;
    var before := s.caches[h].entries;
    var e := Entry(task.write.key, At(now), task.write.generation);
    PutUnique(before, e);
    forall c | 0 <= c < |s.clears| && Stale(PutEntry(before, e), s.clears[c].generation)
      ensures s.clears[c].phase.Waiting? || Failed(s.clears[c].phase) || Stale(before, s.clears[c].generation)
    {
      var x :| x in PutEntry(before, e) && x.generation < s.clears[c].generation;
      WithoutMember(before, e.key, x);
      assert Accounted(s.tasks, t, s.clears[c]);
    }
    EntriesKeep(s, h, PutEntry(before, e));
    var w := WithEntries(s, h, PutEntry(before, e));
    AdvanceKeeps(w, t, OpeningToLimit);
    assert WithPhase(w, t, OpeningToLimit) == Written(s, t, now);
  }

  lemma LimitKeeps(s: State, t: nat, clock: seq<int>)
    requires Inv(s) && Enabled(s, Limit(t, clock))
    ensures Inv(Evicted(s, t, clock))
  {
    var task := s.tasks[t];
    var h := task.phase.cache;
    var before := s.caches[h].entries;
    var left := Limited(before, task.maxSize, task.maxAge, clock);
    LimitedUnique(before, task.maxSize, task.maxAge, clock);
    forall c | 0 <= c < |s.clears| && Stale(left, s.clears[c].generation)
      ensures Stale(before, s.clears[c].generation)
    {
      var x :| x in left && x.generation < s.clears[c].generation;
      LimitedMember(before, task.maxSize, task.maxAge, clock, x);
    }
    EntriesKeep(s, h, left);
    var w := WithEntries(s, h, left);
    AdvanceKeeps(w, t, Settled);
    assert WithPhase(w, t, Settled) == Evicted(s, t, clock);
  }

  lemma ScheduleKeepsChains(s: State, key: string, isGet: bool, status: nat, name: string, maxSize: nat, maxAge: nat)
    requires TasksInv(s) && !s.cacheClearing
    ensures TasksInv(Scheduled(s, key, isGet, status, name, maxSize, maxAge))
  {
    var s' := Scheduled(s, key, isGet, status, name, maxSize, maxAge);
    var n := |s.tasks|;
    forall t, u | 0 <= t < u < |s'.tasks| && s'.tasks[t].name == s'.tasks[u].name
      ensures s'.tasks[t].phase.Settled? || Behind(s'.tasks, t, u)
      ensures !IsTail(s'.cacheWrites, s'.tasks, t)
    {
      if u < n {
        assert s.tasks[t].phase.Settled? || Behind(s.tasks, t, u);
        assert !IsTail(s.cacheWrites, s.tasks, t);
      } else if !s.tasks[t].phase.Settled? {
        TailIsLast(s.cacheWrites, s.tasks, t);
      }
    }
    forall t | 0 <= t < |s'.tasks| && s'.tasks[t].cleaned
      ensures s'.tasks[t].phase.Settled? && !IsTail(s'.cacheWrites, s'.tasks, t)
    {
      assert !IsTail(s.cacheWrites, s.tasks, t);
    }
  }

  lemma ScheduleKeeps(s: State, key: string, isGet: bool, status: nat, name: string, maxSize: nat, maxAge: nat)
    requires Inv(s)
    ensures Inv(Scheduled(s, key, isGet, status, name, maxSize, maxAge))
  {
    hide TasksInv, KeysInv, HandlesInv, AwaitedInv, StaleInv, ClearsInv;
    if !s.cacheClearing {
      var s' := Scheduled(s, key, isGet, status, name, maxSize, maxAge);
      ScheduleKeepsChains(s, key, isGet, status, name, maxSize, maxAge);
      ScheduleKeepsAwaited(s, s'.tasks[|s.tasks|]);
    }
  }

  lemma ScheduleKeepsAwaited(s: State, task: Task)
    requires Inv(s) && task.write.generation == s.cacheGeneration && task.phase.Queued?
    ensures AwaitedInv(s.tasks + [task], s.clears)
    ensures HandlesInv(s.storage, s.caches, s.tasks + [task])
  {
    var tasks' := s.tasks + [task];
    forall c, x | 0 <= c < |s.clears| && 0 <= x < |tasks'| ensures Accounted(tasks', x, s.clears[c]) {
      if x < |s.tasks| {
        assert Accounted(s.tasks, x, s.clears[c]);
        if Covered(s.tasks, x, s.clears[c].awaited) {
          var w :| w in s.clears[c].awaited && x <= w < |s.tasks| && s.tasks[w].name == s.tasks[x].name;
          assert tasks'[w].name == tasks'[x].name;
        }
      }
    }
  }

  lemma CleanupKeepsChains(s: State, t: nat)
    requires ChainInv(s.cacheWrites, s.tasks) && PreviousInv(s.tasks) && Enabled(s, Cleanup(t))
    ensures ChainInv(CleanedUp(s, t).cacheWrites, CleanedUp(s, t).tasks)
  {
    var s' := CleanedUp(s, t);
    forall x | 0 <= x < |s'.tasks| && IsTail(s'.cacheWrites, s'.tasks, x)
      ensures x != t && IsTail(s.cacheWrites, s.tasks, x)
    {
    }
    forall x | 0 <= x < |s'.tasks| && !s'.tasks[x].phase.Settled?
      ensures s'.tasks[x].name in s'.cacheWrites
    {
      if s.tasks[x].name == s.tasks[t].name && IsTail(s.cacheWrites, s.tasks, t) {
        TailIsLast(s.cacheWrites, s.tasks, x);
        SettledBefore(s.tasks, x, t);
      }
    }
  }

  /** Marking a task cleaned changes nothing that the order of tasks is about. */
  lemma CleanupKeepsOrder(s: State, t: nat)
    requires PreviousInv(s.tasks) && BornInv(s.cacheGeneration, s.tasks) && Enabled(s, Cleanup(t))
    ensures var s' := CleanedUp(s, t); PreviousInv(s'.tasks) && BornInv(s'.cacheGeneration, s'.tasks)
  {
    var tasks' := CleanedUp(s, t).tasks;
    forall x, u | 0 <= x < u < |tasks'| && tasks'[x].name == tasks'[u].name
      ensures tasks'[x].phase.Settled? || Behind(tasks', x, u)
    {
      assert s.tasks[x].phase.Settled? || Behind(s.tasks, x, u);
    }
  }

  lemma CleanupKeepsHandles(s: State, t: nat)
    requires CachesInv(s) && Enabled(s, Cleanup(t))
    ensures CachesInv(CleanedUp(s, t))
  {
    hide GoodHandle, KeysInv, LinksInv;
  }

  lemma CleanupKeepsAwaited(s: State, t: nat)
    requires AwaitedInv(s.tasks, s.clears) && Enabled(s, Cleanup(t))
    ensures AwaitedInv(CleanedUp(s, t).tasks, s.clears)
  {
    var tasks' := CleanedUp(s, t).tasks;
    forall c, x | 0 <= c < |s.clears| && 0 <= x < |tasks'| ensures Accounted(tasks', x, s.clears[c]) {
      assert Accounted(s.tasks, x, s.clears[c]);
      if Covered(s.tasks, x, s.clears[c].awaited) {
        var w :| w in s.clears[c].awaited && x <= w < |s.tasks| && s.tasks[w].name == s.tasks[x].name;
        assert tasks'[w].name == tasks'[x].name;
      }
    }
  }

  lemma CleanupKeeps(s: State, t: nat)
    requires Inv(s) && Enabled(s, Cleanup(t))
    ensures Inv(CleanedUp(s, t))
  {
    hide ChainInv, PreviousInv, BornInv, HandlesInv, KeysInv, AwaitedInv, StaleInv, ClearsInv;
    CleanupKeepsChains(s, t);
    CleanupKeepsOrder(s, t);
    CleanupKeepsHandles(s, t);
    CleanupKeepsAwaited(s, t);
  }

  lemma StartClearKeeps(s: State)
    requires Inv(s)
    ensures Inv(ClearStarted(s))
  {
    var s' := ClearStarted(s);
    var n := |s.clears|;
    forall c, x | 0 <= c < |s'.clears| && 0 <= x < |s.tasks| ensures Accounted(s.tasks, x, s'.clears[c]) {
      if c < n {
        assert Accounted(s.tasks, x, s.clears[c]);
      } else if !s.tasks[x].phase.Settled? {
        var w := s.cacheWrites[s.tasks[x].name];
        TailIsLast(s.cacheWrites, s.tasks, x);
        assert w in s'.clears[n].awaited;
        assert Covered(s.tasks, x, s'.clears[n].awaited);
      }
    }
    forall c, name | 0 <= c < |s'.clears| && name in s.storage && Stale(s.caches[s.storage[name]].entries, s'.clears[c].generation)
      ensures MayRemain(s'.clears[c].phase, name)
    {
      if c < n {
        assert s'.clears[c] == s.clears[c];
      }
    }
  }

  /** A clear changes phase: its tasks and its stale caches must allow the new phase. */
  lemma ClearPhaseKeeps(s: State, c: nat, phase: ClearPhase)
    requires Inv(s) && c < |s.clears| && !s.clears[c].phase.Done? && !phase.Done?
    requires forall t :: 0 <= t < |s.tasks| ==> Accounted(s.tasks, t, s.clears[c].(phase := phase))
    requires forall name :: name in s.storage && Stale(s.caches[s.storage[name]].entries, s.clears[c].generation)
               ==> MayRemain(phase, name)
    ensures Inv(WithClear(s, c, phase))
  {
    var s' := WithClear(s, c, phase);
    forall d, x | 0 <= d < |s'.clears| && 0 <= x < |s.tasks| ensures Accounted(s.tasks, x, s'.clears[d]) {
      assert Accounted(s.tasks, x, s.clears[d]);
    }
    forall d, name | 0 <= d < |s'.clears| && name in s.storage && Stale(s.caches[s.storage[name]].entries, s'.clears[d].generation)
      ensures MayRemain(s'.clears[d].phase, name)
    {
      assert s'.clears[d].generation == s.clears[d].generation;
    }
  }

  lemma ListKeeps(s: State, c: nat)
    requires Inv(s) && Enabled(s, ListCaches(c))
    ensures Inv(Apply(s, ListCaches(c)))
  {
    var phase := Deleting(s.clears[c].phase.Deleting?, s.storage.Keys);
    forall t | 0 <= t < |s.tasks| ensures Accounted(s.tasks, t, s.clears[c].(phase := phase)) {
      assert Accounted(s.tasks, t, s.clears[c]);
      if s.clears[c].phase.Waiting? && Covered(s.tasks, t, s.clears[c].awaited) {
        var w :| w in s.clears[c].awaited && t <= w < |s.tasks| && s.tasks[w].name == s.tasks[t].name;
        SettledBefore(s.tasks, t, w);
      }
    }
    ClearPhaseKeeps(s, c, phase);
  }

  /** Unlinking a name hurts nothing. */
  lemma UnlinkKeeps(s: State, name: string)
    requires Inv(s)
    ensures Inv(s.(storage := s.storage - {name}))
  {
    var s' := s.(storage := s.storage - {name});
    forall t, h | 0 <= t < |s.tasks| && Holds(s.tasks[t].phase, h)
      ensures GoodHandle(s'.storage, s'.caches, s.tasks[t].name, h)
    {
      assert GoodHandle(s.storage, s.caches, s.tasks[t].name, h);
    }
  }

  lemma DeleteKeeps(s: State, c: nat, name: string)
    requires Inv(s) && Enabled(s, DeleteCache(c, name))
    ensures Inv(Apply(s, DeleteCache(c, name)))
  {
    var u := s.(storage := s.storage - {name});
    UnlinkKeeps(s, name);
    var phase := s.clears[c].phase.(names := s.clears[c].phase.names - {name});
    forall t | 0 <= t < |s.tasks| ensures Accounted(s.tasks, t, s.clears[c].(phase := phase)) {
      assert Accounted(s.tasks, t, s.clears[c]);
    }
    ClearPhaseKeeps(u, c, phase);
    assert WithClear(u, c, phase) == Apply(s, DeleteCache(c, name));
  }

  lemma EndKeeps(s: State, c: nat, success: bool)
    requires Inv(s) && Enabled(s, if success then Report(c) else FailClear(c))
    ensures Inv(WithClear(s, c, Reported(success)))
  {
    forall t | 0 <= t < |s.tasks| ensures Accounted(s.tasks, t, s.clears[c].(phase := Reported(success))) {
      assert Accounted(s.tasks, t, s.clears[c]);
    }
    ClearPhaseKeeps(s, c, Reported(success));
  }

  lemma FinishKeeps(s: State, c: nat)
    requires Inv(s) && Enabled(s, FinishClear(c))
    ensures Inv(Finished(s, c))
  {
    hide ChainInv, PreviousInv, BornInv, KeysInv, HandlesInv;
    var s' := Finished(s, c);
    forall d, x | 0 <= d < |s'.clears| && 0 <= x < |s.tasks| ensures Accounted(s.tasks, x, s'.clears[d]) {
      assert Accounted(s.tasks, x, s.clears[d]);
    }
    forall d, name | 0 <= d < |s'.clears| && name in s.storage && Stale(s.caches[s.storage[name]].entries, s'.clears[d].generation)
      ensures MayRemain(s'.clears[d].phase, name)
    {
      assert s'.clears[d].generation == s.clears[d].generation;
    }
  }

  lemma InitInv(s: State)
    requires Init(s)
    ensures Inv(s)
  {
  }

  lemma LinksOf(s: State)
    requires Inv(s)
    ensures LinksInv(s.storage, s.caches)
  {
  }

  /** The task a step is about. */
  function TaskOf(step: Step): Option<nat> {
    match step
    case StartTask(t) => Some(t)
    case OpenToPut(t) => Some(t)
    case Put(t, _) => Some(t)
    case OpenToLimit(t) => Some(t)
    case Limit(t, _) => Some(t)
    case FailTask(t) => Some(t)
    case Cleanup(t) => Some(t)
    case _ => None
  }

  lemma TaskStepKeeps(s: State, step: Step)
    requires Inv(s) && Enabled(s, step) && TaskOf(step).Some?
    ensures Inv(Apply(s, step))
  {
    hide Inv, Written, Evicted, CleanedUp;
    match step {
      case StartTask(t) =>
        var phase := Started(s, t).tasks[t].phase;
        AdvanceKeeps(s, t, phase);
      case OpenToPut(t) =>
        OpenKeeps(s, t);
        var o := Opened(s, s.tasks[t].name);
        AdvanceKeeps(o, t, Putting(o.storage[s.tasks[t].name]));
      case Put(t, now) => PutKeeps(s, t, now);
      case OpenToLimit(t) =>
        OpenKeeps(s, t);
        var o := Opened(s, s.tasks[t].name);
        AdvanceKeeps(o, t, Limiting(o.storage[s.tasks[t].name]));
      case Limit(t, clock) => LimitKeeps(s, t, clock);
      case FailTask(t) => AdvanceKeeps(s, t, Settled);
      case Cleanup(t) => CleanupKeeps(s, t);
    }
  }

  lemma StepKeeps(s: State, step: Step)
    requires Inv(s) && Enabled(s, step)
    ensures Inv(Apply(s, step))
  {
    hide Inv, Scheduled, ClearStarted, Finished, Written, Evicted, CleanedUp;
    match step {
      case Schedule(key, isGet, status, name, maxSize, maxAge) => ScheduleKeeps(s, key, isGet, status, name, maxSize, maxAge);
      case StartClear => StartClearKeeps(s);
      case ListCaches(c) => ListKeeps(s, c);
      case DeleteCache(c, name) => DeleteKeeps(s, c, name);
      case Report(c) => EndKeeps(s, c, true);
      case FailClear(c) => EndKeeps(s, c, false);
      case FinishClear(c) => FinishKeeps(s, c);
      case StrayDelete(name) => UnlinkKeeps(s, name);
      case _ => TaskStepKeeps(s, step);
    }
  }

  lemma {:induction false} RunKeeps(s: State, steps: seq<Step>)
    requires Inv(s) && IsRun(s, steps)
    ensures Inv(After(s, steps))
    decreases |steps|
  {
    if steps != [] {
      StepKeeps(s, steps[0]);
      RunKeeps(Apply(s, steps[0]), steps[1..]);
    }
  }

  // ---------- what a run guarantees ----------

  predicate Succeeded(s: State, c: nat) {
    c < |s.clears| && (s.clears[c].phase == Reported(true) || s.clears[c].phase == Done(true))
  }

  lemma {:induction false} RunSplits(s: State, a: seq<Step>, b: seq<Step>)
    requires IsRun(s, a + b)
    ensures IsRun(s, a) && IsRun(After(s, a), b) && After(s, a + b) == After(After(s, a), b)
    decreases |a|
  {
    if a == [] {
      assert a + b == b;
    } else {
      assert (a + b)[1..] == a[1..] + b;
      RunSplits(Apply(s, a[0]), a[1..], b);
    }
  }

  lemma {:induction false} RunsJoin(s: State, a: seq<Step>, b: seq<Step>)
    requires IsRun(s, a) && IsRun(After(s, a), b)
    ensures IsRun(s, a + b) && After(s, a + b) == After(After(s, a), b)
    decreases |a|
  {
    if a == [] {
      assert a + b == b;
    } else {
      assert (a + b)[1..] == a[1..] + b;
      RunsJoin(Apply(s, a[0]), a[1..], b);
    }
  }

  lemma StepKeepsSuccess(s: State, step: Step, c: nat)
    requires Enabled(s, step) && Succeeded(s, c)
    ensures Succeeded(Apply(s, step), c)
  {
    hide PutEntry, Limited;
  }

  lemma {:induction false} SuccessStays(s: State, steps: seq<Step>, c: nat)
    requires IsRun(s, steps) && Succeeded(s, c)
    ensures Succeeded(After(s, steps), c)
    decreases |steps|
  {
    hide Apply, Enabled, Succeeded;
    if steps != [] {
      StepKeepsSuccess(s, steps[0], c);
      SuccessStays(Apply(s, steps[0]), steps[1..], c);
    }
  }

  /** Once a clear has reported success, no cache that can be reached by name holds an
    * entry scheduled before that clear, then or at any later point of the run. */
  lemma ClearedForGood(s: State, earlier: seq<Step>, later: seq<Step>, c: nat)
    requires Init(s) && IsRun(s, earlier + later)
    requires IsRun(s, earlier) && Succeeded(After(s, earlier), c)
    ensures var end := After(s, earlier + later);
            && c < |end.clears| && end.clears[c].generation == c + 1
            && LinksInv(end.storage, end.caches)
            && forall name, e :: name in end.storage && e in end.caches[end.storage[name]].entries
                 ==> e.generation >= end.clears[c].generation
  {
    RunSplits(s, earlier, later);
    SuccessStays(After(s, earlier), later, c);
    InitInv(s);
    RunKeeps(s, earlier + later);
    var end := After(s, earlier + later);
    forall name, e | name in end.storage && e in end.caches[end.storage[name]].entries
      ensures e.generation >= end.clears[c].generation
    {
      if e.generation < end.clears[c].generation {
        assert Stale(end.caches[end.storage[name]].entries, end.clears[c].generation);
      }
    }
  }

  /** The flag is up exactly while the clear of the current generation is in flight, and
    * in every state at most one task of each cache is running. */
  lemma FlagAndOverlap(s: State, steps: seq<Step>)
    requires Init(s) && IsRun(s, steps)
    ensures var end := After(s, steps);
            && (end.cacheClearing <==>
                exists c :: 0 <= c < |end.clears| && end.clears[c].generation == end.cacheGeneration && !end.clears[c].phase.Done?)
            && (forall t, u | 0 <= t < |end.tasks| && 0 <= u < |end.tasks| && end.tasks[t].name == end.tasks[u].name
                  :: Active(end.tasks[t].phase) && Active(end.tasks[u].phase) ==> t == u)
  {
    InitInv(s);
    RunKeeps(s, steps);
    var end := After(s, steps);
    if end.cacheClearing {
      assert end.clears[|end.clears| - 1].generation == end.cacheGeneration;
    }
  }

  /** Once every clear has settled, writes are admitted again; once every task has settled
    * and cleaned up, the chain map is empty. */
  lemma Quiescence(s: State, steps: seq<Step>, key: string, name: string, maxSize: nat, maxAge: nat)
    requires Init(s) && IsRun(s, steps)
    ensures var end := After(s, steps);
            && ((forall c :: 0 <= c < |end.clears| ==> end.clears[c].phase.Done?) ==>
                  |Apply(end, Schedule(key, true, 200, name, maxSize, maxAge)).tasks| == |end.tasks| + 1)
            && ((forall t :: 0 <= t < |end.tasks| ==> end.tasks[t].cleaned) ==> end.cacheWrites == map[])
  {
    InitInv(s);
    RunKeeps(s, steps);
    var end := After(s, steps);
    if forall t :: 0 <= t < |end.tasks| ==> end.tasks[t].cleaned {
      forall n | n in end.cacheWrites ensures false {
        assert IsTail(end.cacheWrites, end.tasks, end.cacheWrites[n]);
      }
    }
  }

  // ---------- what a step leaves alone ----------

  predicate Deletes(step: Step, name: string) {
    (step.DeleteCache? && step.name == name) || (step.StrayDelete? && step.name == name)
  }

  /** A step of no task or of another leaves a task alone. */
  lemma TaskFrame(s: State, step: Step, t: nat)
    requires Enabled(s, step) && TaskOf(step) != Some(t) && t < |s.tasks|
    ensures t < |Apply(s, step).tasks| && Apply(s, step).tasks[t] == s.tasks[t]
  {
    hide PutEntry, Limited;
  }

  lemma OtherFrame(s: State, step: Step, name: string)
    requires LinksInv(s.storage, s.caches) && Enabled(s, step)
    requires name in s.storage && name in Apply(s, step).storage
    requires step.Put? || step.Limit? ==> s.tasks[step.t].phase.cache != s.storage[name]
    ensures var s' := Apply(s, step);
            && s'.storage[name] == s.storage[name] < |s'.caches|
            && s'.caches[s.storage[name]] == s.caches[s.storage[name]]
  {
    hide PutEntry, Limited;
  }
}
