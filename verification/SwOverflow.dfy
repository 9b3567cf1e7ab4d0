/** How far a cache of the service worker really may outgrow its cap: `SwSizes.SizeBound`
  * is reached, for every number of failed tasks. */
module SwOverflow {
  import opened Common
  import opened SwCache
  import opened SwProtocol
  import opened SwSizes

  /** No write to the cache is queued and none is refused. */
  predicate Quiet(s: State, name: string) {
    !s.cacheClearing && name !in s.cacheWrites && name in s.storage && s.storage[name] < |s.caches|
  }

  function Size(s: State, name: string): nat {
    if name in s.storage && s.storage[name] < |s.caches| then |s.caches[s.storage[name]].entries| else 0
  }

  /** A state with so many entries in the cache, and a task about to evict them or none. */
  ghost predicate Holding(s: State, name: string, size: nat, over: bool) {
    Size(s, name) == size && (SomeOverCap(s.tasks, name) <==> over)
  }

  /** Some run that schedules every cache under its cap leads to such a state, its failed
    * tasks having left `after` entries by the count of `SwSizes.Leftovers`. */
  ghost predicate Reaches(s: State, caps: string -> nat, name: string, left: nat, after: nat, size: nat, over: bool) {
    exists steps :: IsRun(s, steps) && Respect(steps, caps) && Leftovers(s, steps, name, left) == after
      && Holding(After(s, steps), name, size, over)
  }

  predicate Respect(steps: seq<Step>, caps: string -> nat) {
    forall i :: 0 <= i < |steps| ==> RespectsCap(steps[i], caps)
  }

  lemma ReachesItself(s: State, caps: string -> nat, name: string, left: nat, over: bool)
    requires SomeOverCap(s.tasks, name) <==> over
    ensures Reaches(s, caps, name, left, left, Size(s, name), over)
  {
    assert IsRun(s, []) && Respect([], caps) && Leftovers(s, [], name, left) == left;
  }

  lemma ReachesVia(s: State, step: Step, next: State, caps: string -> nat, name: string, left: nat, after: nat, size: nat, over: bool)
    requires Enabled(s, step) && Apply(s, step) == next && RespectsCap(step, caps)
    requires Reaches(next, caps, name, Left(s, step, name, left), after, size, over)
    ensures Reaches(s, caps, name, left, after, size, over)
  {
    hide Enabled, Apply, Holding, Left;
    var now := Left(s, step, name, left);
    var rest :| IsRun(next, rest) && Respect(rest, caps) && Leftovers(next, rest, name, now) == after
      && Holding(After(next, rest), name, size, over);
    var steps := [step] + rest;
    assert steps[1..] == rest;
    assert IsRun(s, steps) && Respect(steps, caps) && Leftovers(s, steps, name, left) == after;
  }

  function NewTask(s: State, key: string, name: string, cap: nat): Task {
    Task(Write(true, 200, key, s.cacheGeneration), name, cap, 0, None, Queued, false)
  }

  /** The state in which only this write has happened, and its task is in the given phase. */
  function WithNew(s: State, task: Task, entries: seq<Entry>, chained: bool): State
    requires Quiet(s, task.name)
  {
    var h := s.storage[task.name];
    s.(tasks := s.tasks + [task],
       cacheWrites := if chained then s.cacheWrites[task.name := |s.tasks|] else s.cacheWrites,
       caches := s.caches[h := s.caches[h].(entries := entries)])
  }

  lemma NewTaskMoves(tasks: seq<Task>, task: Task, moved: Task)
    ensures (tasks + [task])[|tasks| := moved] == tasks + [moved]
  {
  }

  /** The cache with a new entry under `key` put on it. */
  function WithPut(s: State, key: string, name: string): seq<Entry>
    requires Quiet(s, name)
  {
    PutEntry(s.caches[s.storage[name]].entries, Entry(key, At(0), s.cacheGeneration))
  }

  /** The first four steps of a write. */
  lemma WriteReaches(s: State, key: string, caps: string -> nat, name: string, left: nat, after: nat, size: nat, over: bool)
    requires Quiet(s, name)
    requires Reaches(WithNew(s, NewTask(s, key, name, caps(name)).(phase := OpeningToLimit), WithPut(s, key, name), true),
                     caps, name, left, after, size, over)
    ensures Reaches(s, caps, name, left, after, size, over)
  {
    hide Reaches, PutEntry, OverCap;
    var t, h, task := |s.tasks|, s.storage[name], NewTask(s, key, name, caps(name));
    var before := s.caches[h].entries;
    assert s.caches[h := s.caches[h].(entries := before)] == s.caches;
    var s1 := WithNew(s, task, before, true);
    var s2 := WithNew(s, task.(phase := OpeningToPut), before, true);
    var s3 := WithNew(s, task.(phase := Putting(h)), before, true);
    var s4 := WithNew(s, task.(phase := OpeningToLimit), WithPut(s, key, name), true);
    NewTaskMoves(s.tasks, s1.tasks[t], s2.tasks[t]);
    NewTaskMoves(s.tasks, s2.tasks[t], s3.tasks[t]);
    NewTaskMoves(s.tasks, s3.tasks[t], s4.tasks[t]);
    ReachesVia(s3, Put(t, 0), s4, caps, name, left, after, size, over);
    ReachesVia(s2, OpenToPut(t), s3, caps, name, left, after, size, over);
    ReachesVia(s1, StartTask(t), s2, caps, name, left, after, size, over);
    ReachesVia(s, Schedule(key, true, 200, name, caps(name), 0), s1, caps, name, left, after, size, over);
  }

  /** After the failure and the clean-up the cache is quiet again, the entry still there. */
  function AfterFailure(s: State, key: string, caps: string -> nat, name: string): State
    requires Quiet(s, name)
  {
    WithNew(s, NewTask(s, key, name, caps(name)).(phase := Settled, cleaned := true), WithPut(s, key, name), false)
  }

  lemma FailureReaches(s: State, key: string, caps: string -> nat, name: string, left: nat, after: nat, size: nat, over: bool)
    requires Quiet(s, name) && Reaches(AfterFailure(s, key, caps, name), caps, name, left + 1, after, size, over)
    ensures Reaches(s, caps, name, left, after, size, over)
  {
    hide Reaches, PutEntry;
    var t, task, put := |s.tasks|, NewTask(s, key, name, caps(name)), WithPut(s, key, name);
    var s4 := WithNew(s, task.(phase := OpeningToLimit), put, true);
    var s5 := WithNew(s, task.(phase := Settled), put, true);
    var s6 := AfterFailure(s, key, caps, name);
    NewTaskMoves(s.tasks, s4.tasks[t], s5.tasks[t]);
    NewTaskMoves(s.tasks, s5.tasks[t], s6.tasks[t]);
    assert s.cacheWrites[name := t] - {name} == s.cacheWrites;
    ReachesVia(s5, Cleanup(t), s6, caps, name, left + 1, after, size, over);
    ReachesVia(s4, FailTask(t), s5, caps, name, left, after, size, over);
    WriteReaches(s, key, caps, name, left, after, size, over);
  }

  // ---------- a key the cache does not have ----------

  function LongKey(entries: seq<Entry>): string {
    if entries == [] then "k"
    else
      var rest := LongKey(entries[1..]);
      if |entries[0].key| >= |rest| then entries[0].key + "k" else rest
  }

  lemma {:induction false} LongKeyIsNew(entries: seq<Entry>)
    ensures forall i :: 0 <= i < |entries| ==> |entries[i].key| < |LongKey(entries)|
  {
    if entries != [] {
      LongKeyIsNew(entries[1..]);
      assert forall i :: 1 <= i < |entries| ==> entries[i] == entries[1..][i - 1];
    }
  }

  lemma PutGrows(s: State, name: string) returns (key: string)
    requires Quiet(s, name)
    ensures |WithPut(s, key, name)| == Size(s, name) + 1
  {
    var entries := s.caches[s.storage[name]].entries;
    key := LongKey(entries);
    LongKeyIsNew(entries);
    WithoutAbsent(entries, key);
  }

  /** For every number of failures there is a run that leaves that many entries more than
    * the cache held, and one more while the next task is between its write and its
    * eviction: from a full cache, exactly the bound. */
  lemma {:induction false} BoundIsReached(s: State, caps: string -> nat, name: string, left: nat, failures: nat)
    requires Quiet(s, name) && !SomeOverCap(s.tasks, name)
    ensures Reaches(s, caps, name, left, left + failures, Size(s, name) + failures, false)
    ensures Reaches(s, caps, name, left, left + failures, Size(s, name) + failures + 1, true)
    decreases failures
  {
    hide Reaches, PutEntry, SomeOverCap;
    var key := PutGrows(s, name);
    NewTaskIsOver(s, key, caps, name);
    if failures == 0 {
      var written := WithNew(s, NewTask(s, key, name, caps(name)).(phase := OpeningToLimit), WithPut(s, key, name), true);
      ReachesItself(s, caps, name, left, false);
      ReachesItself(written, caps, name, left, true);
      WriteReaches(s, key, caps, name, left, left, Size(written, name), true);
    } else {
      var next := AfterFailure(s, key, caps, name);
      BoundIsReached(next, caps, name, left + 1, failures - 1);
      FailureReaches(s, key, caps, name, left, left + failures, Size(s, name) + failures, false);
      FailureReaches(s, key, caps, name, left, left + failures, Size(s, name) + failures + 1, true);
    }
  }

  lemma NewTaskIsOver(s: State, key: string, caps: string -> nat, name: string)
    requires Quiet(s, name) && !SomeOverCap(s.tasks, name)
    ensures SomeOverCap(s.tasks + [NewTask(s, key, name, caps(name)).(phase := OpeningToLimit)], name)
    ensures !SomeOverCap(AfterFailure(s, key, caps, name).tasks, name)
  {
    assert OverCap(s.tasks + [NewTask(s, key, name, caps(name)).(phase := OpeningToLimit)], |s.tasks|, name);
    var tasks' := AfterFailure(s, key, caps, name).tasks;
    forall t | OverCap(tasks', t, name) ensures OverCap(s.tasks, t, name) {
    }
  }
}
