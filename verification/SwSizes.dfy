/** How far a cache of the service worker may outgrow its cap. */
module SwSizes {
  import opened Common
  import opened SwCache
  import opened SwProtocol

  predicate RespectsCap(step: Step, caps: string -> nat) {
    step.Schedule? ==> step.maxSize == caps(step.name)
  }

  /** A task that has written to its cache and not evicted yet. */
  predicate HasWritten(task: Task) {
    Cacheable(task.write) && (task.phase.OpeningToLimit? || task.phase.Limiting?)
  }

  predicate OverCap(tasks: seq<Task>, t: nat, name: string) {
    t < |tasks| && tasks[t].name == name && HasWritten(tasks[t])
  }

  ghost predicate SomeOverCap(tasks: seq<Task>, name: string) {
    exists t :: OverCap(tasks, t, name)
  }

  /** How many tasks of a cache failed between their write and their eviction since an
    * eviction of that cache was last completed, or the cache deleted: `left` before the step. */
  function Left(s: State, step: Step, name: string, left: nat): nat
    requires Enabled(s, step)
  {
    if step.FailTask? && OverCap(s.tasks, step.t, name) then left + 1
    else if (step.Limit? && s.tasks[step.t].name == name) || Deletes(step, name) then 0
    else left
  }

  /** The same at the end of a run. */
  ghost function Leftovers(s: State, steps: seq<Step>, name: string, left: nat): nat
    requires IsRun(s, steps)
    decreases |steps|
  {
    if steps == [] then left else Leftovers(Apply(s, steps[0]), steps[1..], name, Left(s, steps[0], name, left))
  }

  /** A task has its cache's cap, and one about to write has a cacheable response. */
  predicate CapKept(task: Task, caps: string -> nat) {
    && task.maxSize == caps(task.name)
    && (task.phase.OpeningToPut? || task.phase.Putting? ==> Cacheable(task.write))
  }

  predicate CapsKept(tasks: seq<Task>, caps: string -> nat) {
    forall t :: 0 <= t < |tasks| ==> CapKept(tasks[t], caps)
  }

  /** A linked cache is within its cap and what failed tasks left, or one beyond while its
    * task is about to evict. */
  ghost predicate CapInv(s: State, caps: string -> nat, name: string, left: nat)
    requires LinksInv(s.storage, s.caches)
  {
    CapsKept(s.tasks, caps) && (name in s.storage ==> WithinCap(s, caps(name) + left, name))
  }

  ghost predicate WithinCap(s: State, bound: nat, name: string)
    requires LinksInv(s.storage, s.caches) && name in s.storage
  {
    var size := |s.caches[s.storage[name]].entries|;
    size <= bound || (size == bound + 1 && SomeOverCap(s.tasks, name))
  }

  lemma StepKeepsCap(s: State, step: Step, caps: string -> nat, name: string, left: nat)
    requires Inv(s) && Enabled(s, step) && RespectsCap(step, caps) && CapInv(s, caps, name, left)
    ensures Inv(Apply(s, step)) && CapInv(Apply(s, step), caps, name, Left(s, step, name, left))
  {
    hide Apply, Inv, WithinCap, Left, RespectsCap;
    StepKeeps(s, step);
    LinksOf(s);
    LinksOf(Apply(s, step));
    StepKeepsMaxSize(s, step, caps);
    if name in Apply(s, step).storage {
      if name in s.storage {
        StepKeepsWithin(s, step, caps, name, left);
      } else {
        NewLinkEmpty(s, step, name);
        EmptyIsWithin(Apply(s, step), caps(name) + Left(s, step, name, left), name);
      }
    }
  }

  lemma EmptyIsWithin(s: State, bound: nat, name: string)
    requires LinksInv(s.storage, s.caches) && name in s.storage && s.caches[s.storage[name]].entries == []
    ensures WithinCap(s, bound, name)
  {
  }

  lemma StepKeepsMaxSize(s: State, step: Step, caps: string -> nat)
    requires Enabled(s, step) && RespectsCap(step, caps)
    requires CapsKept(s.tasks, caps)
    ensures CapsKept(Apply(s, step).tasks, caps)
  {
    hide PutEntry, Limited, CapKept;
    var s' := Apply(s, step);
    forall t | 0 <= t < |s'.tasks| ensures CapKept(s'.tasks[t], caps) {
      TaskKeepsCap(s, step, caps, t);
    }
  }

  lemma TaskKeepsCap(s: State, step: Step, caps: string -> nat, t: nat)
    requires Enabled(s, step) && RespectsCap(step, caps) && t < |Apply(s, step).tasks|
    requires t < |s.tasks| ==> CapKept(s.tasks[t], caps)
    ensures CapKept(Apply(s, step).tasks[t], caps)
  {
    hide Apply, Enabled, CapKept, RespectsCap;
    if t >= |s.tasks| {
      NewTaskHasCap(s, step, caps, t);
    } else if TaskOf(step) != Some(t) {
      TaskFrame(s, step, t);
    } else {
      OwnStepKeepsCap(s, step, caps, t);
    }
  }

  lemma NewTaskHasCap(s: State, step: Step, caps: string -> nat, t: nat)
    requires Enabled(s, step) && RespectsCap(step, caps) && |s.tasks| <= t < |Apply(s, step).tasks|
    ensures CapKept(Apply(s, step).tasks[t], caps)
  {
    hide PutEntry, Limited;
  }

  lemma OwnStepKeepsCap(s: State, step: Step, caps: string -> nat, t: nat)
    requires Enabled(s, step) && TaskOf(step) == Some(t) && t < |s.tasks| && CapKept(s.tasks[t], caps)
    ensures t < |Apply(s, step).tasks| && CapKept(Apply(s, step).tasks[t], caps)
  {
    hide PutEntry, Limited;
  }

  lemma NewLinkEmpty(s: State, step: Step, name: string)
    requires Enabled(s, step) && name !in s.storage && name in Apply(s, step).storage
    ensures var s' := Apply(s, step); s'.storage[name] < |s'.caches| && s'.caches[s'.storage[name]].entries == []
  {
    hide PutEntry, Limited;
  }

  lemma StepKeepsWithin(s: State, step: Step, caps: string -> nat, name: string, left: nat)
    requires Inv(s) && Enabled(s, step) && CapInv(s, caps, name, left) && Inv(Apply(s, step))
    requires name in s.storage && name in Apply(s, step).storage
    ensures WithinCap(Apply(s, step), caps(name) + Left(s, step, name, left), name)
  {
    hide Apply, TasksInv, ClearingInv, WithinCap, OverCap, KeysInv, LinksInv, SomeOverCap;
    var h := s.storage[name];
    if step.Put? && s.tasks[step.t].phase.cache == h {
      PutKeepsWithin(s, step.t, step.now, caps(name) + left, caps, name);
    } else if step.Limit? && s.tasks[step.t].phase.cache == h {
      LimitIsWithin(s, step.t, step.clock, caps, name);
    } else {
      OtherCache(s, step, name);
      OtherKeepsWithin(s, step, caps(name), name, left);
    }
  }

  /** An eviction of the linked cache brings it within its cap. */
  lemma LimitIsWithin(s: State, t: nat, clock: seq<int>, caps: string -> nat, name: string)
    requires Inv(s) && Enabled(s, Limit(t, clock)) && CapsKept(s.tasks, caps) && Inv(Apply(s, Limit(t, clock)))
    requires name in s.storage && s.tasks[t].phase.cache == s.storage[name]
    ensures s.tasks[t].name == name && WithinCap(Apply(s, Limit(t, clock)), caps(name), name)
  {
    hide TasksInv, ClearingInv, KeysInv, OverCap;
    assert Holds(s.tasks[t].phase, s.storage[name]);
  }

  /** A cache that stays linked was not deleted, nor evicted by a task on another. */
  lemma OtherCache(s: State, step: Step, name: string)
    requires Inv(s) && Enabled(s, step) && name in s.storage && name in Apply(s, step).storage
    requires step.Limit? ==> s.tasks[step.t].phase.cache != s.storage[name]
    ensures !Deletes(step, name) && (step.Limit? ==> s.tasks[step.t].name != name)
  {
    hide TasksInv, ClearingInv, KeysInv, Limited, PutEntry;
    if step.Limit? && s.tasks[step.t].name == name {
      LimitsItsLink(s, step.t, name);
    }
  }

  lemma PutKeepsWithin(s: State, t: nat, now: int, bound: nat, caps: string -> nat, name: string)
    requires Inv(s) && CapsKept(s.tasks, caps) && Enabled(s, Put(t, now)) && Inv(Apply(s, Put(t, now)))
    requires name in s.storage && s.tasks[t].phase.cache == s.storage[name] && WithinCap(s, bound, name)
    ensures WithinCap(Apply(s, Put(t, now)), bound, name)
  {
    var h := s.storage[name];
    assert Holds(s.tasks[t].phase, h);
    PutUnique(s.caches[h].entries, Entry(s.tasks[t].write.key, At(now), s.tasks[t].write.generation));
    if u: nat :| OverCap(s.tasks, u, name) {
      SoleActive(s.tasks, t, u);
    }
    assert CapKept(s.tasks[t], caps);
    assert OverCap(Apply(s, Put(t, now)).tasks, t, name);
  }

  lemma OtherKeepsWithin(s: State, step: Step, cap: nat, name: string, left: nat)
    requires Inv(s) && Enabled(s, step) && Inv(Apply(s, step))
    requires name in s.storage && name in Apply(s, step).storage && WithinCap(s, cap + left, name)
    requires step.Put? || step.Limit? ==> s.tasks[step.t].phase.cache != s.storage[name]
    requires !Deletes(step, name) && (step.Limit? ==> s.tasks[step.t].name != name)
    ensures WithinCap(Apply(s, step), cap + Left(s, step, name, left), name)
  {
    hide TasksInv, ClearingInv, KeysInv, Apply, HasWritten;
    OtherFrame(s, step, name);
    if t: nat :| OverCap(s.tasks, t, name) {
      OverCapStays(s, step, name, t);
    }
  }

  lemma LimitsItsLink(s: State, t: nat, name: string)
    requires Inv(s) && t < |s.tasks| && s.tasks[t].phase.Limiting? && s.tasks[t].name == name && name in s.storage
    ensures s.tasks[t].phase.cache == s.storage[name]
  {
    hide ClearingInv, ChainInv, BornInv, KeysInv, PreviousInv;
    assert Holds(s.tasks[t].phase, s.tasks[t].phase.cache);
  }

  /** A task about to evict stays so until it does or fails. */
  lemma OverCapStays(s: State, step: Step, name: string, t: nat)
    requires Inv(s) && Enabled(s, step) && OverCap(s.tasks, t, name)
    requires name in s.storage && (step.Limit? ==> s.tasks[step.t].phase.cache != s.storage[name])
    ensures step == FailTask(t) || OverCap(Apply(s, step).tasks, t, name)
  {
    hide ClearingInv, ChainInv, BornInv, KeysInv, PreviousInv, Limited;
    if s.tasks[t].phase.Limiting? {
      LimitsItsLink(s, t, name);
    }
    if TaskOf(step) != Some(t) {
      TaskFrame(s, step, t);
    }
  }

  lemma {:induction false} RunKeepsCap(s: State, steps: seq<Step>, caps: string -> nat, name: string, left: nat)
    requires Inv(s) && IsRun(s, steps) && CapInv(s, caps, name, left)
    requires forall i :: 0 <= i < |steps| ==> RespectsCap(steps[i], caps)
    ensures Inv(After(s, steps)) && CapInv(After(s, steps), caps, name, Leftovers(s, steps, name, left))
    decreases |steps|
  {
    hide Apply, Enabled, RespectsCap, WithinCap, Left, CapsKept;
    if steps != [] {
      StepKeepsCap(s, steps[0], caps, name, left);
      RunKeepsCap(Apply(s, steps[0]), steps[1..], caps, name, Left(s, steps[0], name, left));
    }
  }

  /** From caches within their caps, a cache never holds more than its cap, the entries that
    * its tasks left by failing between write and eviction since it was last evicted or
    * deleted, and one, which it holds only while a task of it is about to evict. */
  lemma SizeBound(s: State, steps: seq<Step>, caps: string -> nat, name: string)
    requires Init(s) && IsRun(s, steps) && name in After(s, steps).storage
    requires name in s.storage ==> |s.caches[s.storage[name]].entries| <= caps(name)
    requires forall i :: 0 <= i < |steps| ==> RespectsCap(steps[i], caps)
    ensures var end := After(s, steps);
            var left := Leftovers(s, steps, name, 0);
            && end.storage[name] < |end.caches|
            && |end.caches[end.storage[name]].entries| <= caps(name) + left + (if SomeOverCap(end.tasks, name) then 1 else 0)
  {
    InitInv(s);
    RunKeepsCap(s, steps, caps, name, 0);
    assert WithinCap(After(s, steps), caps(name) + Leftovers(s, steps, name, 0), name);
  }
}
