/** A write of the service worker that completes leaves its cache as the sequential code would,
  * whatever other writes and clears run between its awaits. */
module SwWrites {
  import opened Common
  import opened SwCache
  import opened SwProtocol

  /** Steps of other tasks, new writes and clears that do not delete this cache. */
  ghost predicate Elsewhere(steps: seq<Step>, t: nat, name: string) {
    forall i :: 0 <= i < |steps| ==> TaskOf(steps[i]) != Some(t) && !Deletes(steps[i], name)
  }

  lemma LinkStays(s: State, step: Step, name: string)
    requires Enabled(s, step) && !Deletes(step, name) && name in s.storage
    ensures name in Apply(s, step).storage
  {
  }

  /** Another task's write or eviction is not on the cache of a running task. */
  lemma NotItsCache(s: State, step: Step, t: nat, name: string)
    requires Inv(s) && Enabled(s, step) && TaskOf(step) != Some(t)
    requires t < |s.tasks| && Active(s.tasks[t].phase) && s.tasks[t].name == name && name in s.storage
    ensures step.Put? || step.Limit? ==> s.tasks[step.t].phase.cache != s.storage[name]
  {
    hide ClearingInv, ChainInv, BornInv, KeysInv;
    if step.Put? || step.Limit? {
      var u := step.t;
      if s.tasks[u].phase.cache == s.storage[name] {
        assert Holds(s.tasks[u].phase, s.storage[name]);
        SoleActive(s.tasks, t, u);
      }
    }
  }

  /** A step elsewhere leaves the cache of a running task, its link and the task alone. */
  lemma StepElsewhere(s: State, step: Step, t: nat, name: string)
    requires Inv(s) && Enabled(s, step) && Elsewhere([step], t, name)
    requires t < |s.tasks| && Active(s.tasks[t].phase) && s.tasks[t].name == name && name in s.storage
    ensures var s' := Apply(s, step);
            && |s'.tasks| > t && s'.tasks[t] == s.tasks[t]
            && name in s'.storage && s'.storage[name] == s.storage[name]
            && |s'.caches| > s.storage[name] && s'.caches[s.storage[name]] == s.caches[s.storage[name]]
  {
    hide Apply, TasksInv, LinksInv, TaskOf, Deletes;
    assert TaskOf([step][0]) != Some(t) && !Deletes([step][0], name);
    TaskFrame(s, step, t);
    LinkStays(s, step, name);
    NotItsCache(s, step, t, name);
    OtherFrame(s, step, name);
  }

  lemma {:induction false} RunElsewhere(s: State, steps: seq<Step>, t: nat, name: string)
    requires Inv(s) && IsRun(s, steps) && Elsewhere(steps, t, name)
    requires t < |s.tasks| && Active(s.tasks[t].phase) && s.tasks[t].name == name && name in s.storage
    ensures var s' := After(s, steps);
            && Inv(s') && |s'.tasks| > t && s'.tasks[t] == s.tasks[t]
            && name in s'.storage && s'.storage[name] == s.storage[name]
            && s'.caches[s.storage[name]] == s.caches[s.storage[name]]
    decreases |steps|
  {
    if steps != [] {
      assert Elsewhere([steps[0]], t, name);
      StepElsewhere(s, steps[0], t, name);
      StepKeeps(s, steps[0]);
      RunElsewhere(Apply(s, steps[0]), steps[1..], t, name);
    }
  }

  /** A write and its eviction with other steps in between, cut at the task's own steps. */
  ghost predicate WriteRun(s: State, t: nat, now: int, mid1: seq<Step>, mid2: seq<Step>, clock: seq<int>) {
    && Enabled(s, Put(t, now))
    && IsRun(Apply(s, Put(t, now)), mid1)
    && Enabled(After(Apply(s, Put(t, now)), mid1), OpenToLimit(t))
    && IsRun(Apply(After(Apply(s, Put(t, now)), mid1), OpenToLimit(t)), mid2)
    && Enabled(After(Apply(After(Apply(s, Put(t, now)), mid1), OpenToLimit(t)), mid2), Limit(t, clock))
  }

  ghost function AfterWrite(s: State, t: nat, now: int, mid1: seq<Step>, mid2: seq<Step>, clock: seq<int>): State
    requires WriteRun(s, t, now, mid1, mid2, clock)
  {
    Apply(After(Apply(After(Apply(s, Put(t, now)), mid1), OpenToLimit(t)), mid2), Limit(t, clock))
  }

  /** Such a run is an ordinary run of the machine. */
  lemma WriteRunIsRun(s: State, t: nat, now: int, mid1: seq<Step>, mid2: seq<Step>, clock: seq<int>)
    requires WriteRun(s, t, now, mid1, mid2, clock)
    ensures var steps := [Put(t, now)] + (mid1 + ([OpenToLimit(t)] + (mid2 + [Limit(t, clock)])));
            IsRun(s, steps) && After(s, steps) == AfterWrite(s, t, now, mid1, mid2, clock)
  {
    var a := Apply(s, Put(t, now));
    var b := After(a, mid1);
    var c := Apply(b, OpenToLimit(t));
    var d := After(c, mid2);
    var last := [Limit(t, clock)];
    assert IsRun(d, last) && After(d, last) == Apply(d, Limit(t, clock)) by {
      assert last[1..] == [];
    }
    RunsJoin(c, mid2, last);
    var rest2 := [OpenToLimit(t)] + (mid2 + last);
    assert rest2[1..] == mid2 + last;
    RunsJoin(a, mid1, rest2);
    assert ([Put(t, now)] + (mid1 + rest2))[1..] == mid1 + rest2;
  }

  /** A task that writes and then evicts, with any steps elsewhere in between, leaves its
    * cache with exactly the newest `maxSize` unexpired entries of what it found and wrote,
    * the written entry last. */
  lemma CompletedWrite(s: State, t: nat, now: int, mid1: seq<Step>, mid2: seq<Step>, clock: seq<int>)
    requires Inv(s) && WriteRun(s, t, now, mid1, mid2, clock)
    requires s.tasks[t].name in s.storage && s.tasks[t].maxSize > 0
    requires Elsewhere(mid1, t, s.tasks[t].name) && Elsewhere(mid2, t, s.tasks[t].name)
    ensures var end := AfterWrite(s, t, now, mid1, mid2, clock);
            var task := s.tasks[t];
            var h := s.storage[task.name];
            var e := Entry(task.write.key, At(now), task.write.generation);
            var put := PutEntry(s.caches[h].entries, e);
            && task.name in end.storage && end.storage[task.name] == h < |end.caches| && |put| <= |clock|
            && end.caches[h].entries == Limited(put, task.maxSize, task.maxAge, clock)
            && |end.caches[h].entries| <= task.maxSize
            && (Survives(e, task.maxAge, clock[|put| - 1]) ==>
                  end.caches[h].entries != [] && end.caches[h].entries[|end.caches[h].entries| - 1] == e)
  {
    var task := s.tasks[t];
    var before := s.caches[s.storage[task.name]].entries;
    var e := Entry(task.write.key, At(now), task.write.generation);
    WriteContents(s, t, now, mid1, mid2, clock);
    if Survives(e, task.maxAge, clock[|PutEntry(before, e)| - 1]) {
      PutUnique(before, e);
      WriteLeavesNewest(before, e, task.maxSize, task.maxAge, clock);
    }
  }

  lemma WriteContents(s: State, t: nat, now: int, mid1: seq<Step>, mid2: seq<Step>, clock: seq<int>)
    requires Inv(s) && WriteRun(s, t, now, mid1, mid2, clock)
    requires s.tasks[t].name in s.storage
    requires Elsewhere(mid1, t, s.tasks[t].name) && Elsewhere(mid2, t, s.tasks[t].name)
    ensures var end := AfterWrite(s, t, now, mid1, mid2, clock);
            var task := s.tasks[t];
            var h := s.storage[task.name];
            var put := PutEntry(s.caches[h].entries, Entry(task.write.key, At(now), task.write.generation));
            && task.name in end.storage && end.storage[task.name] == h < |end.caches| && |put| <= |clock|
            && end.caches[h].entries == Limited(put, task.maxSize, task.maxAge, clock)
  {
    hide Inv, PutEntry, Limited, Elsewhere;
    LinksOf(s);
    var task := s.tasks[t];
    var name := task.name;
    var h := s.storage[name];
    var put := PutEntry(s.caches[h].entries, Entry(task.write.key, At(now), task.write.generation));
    var a, b := AfterPut(s, t, now, mid1);
    var d := AfterReopen(b, t, mid2);
    assert AfterWrite(s, t, now, mid1, mid2, clock) == Evicted(d, t, clock);
  }

  lemma AfterReopen(b: State, t: nat, mid: seq<Step>) returns (d: State)
    requires Inv(b) && Enabled(b, OpenToLimit(t)) && b.tasks[t].name in b.storage
    requires IsRun(Apply(b, OpenToLimit(t)), mid) && Elsewhere(mid, t, b.tasks[t].name)
    ensures var task := b.tasks[t];
            var h := b.storage[task.name];
            && d == After(Apply(b, OpenToLimit(t)), mid) && h < |b.caches| && h < |d.caches|
            && |d.tasks| > t && d.tasks[t] == task.(phase := Limiting(h))
            && task.name in d.storage && d.storage[task.name] == h && d.caches[h] == b.caches[h]
  {
    StepKeeps(b, OpenToLimit(t));
    var c := Apply(b, OpenToLimit(t));
    RunElsewhere(c, mid, t, b.tasks[t].name);
    d := After(c, mid);
  }

  lemma AfterPut(s: State, t: nat, now: int, mid: seq<Step>) returns (a: State, b: State)
    requires Inv(s) && Enabled(s, Put(t, now)) && s.tasks[t].name in s.storage
    requires IsRun(Apply(s, Put(t, now)), mid) && Elsewhere(mid, t, s.tasks[t].name)
    ensures var task := s.tasks[t];
            var h := s.storage[task.name];
            && a == Apply(s, Put(t, now)) && b == After(a, mid) && Inv(b)
            && |b.tasks| > t && b.tasks[t] == task.(phase := OpeningToLimit)
            && task.name in b.storage && b.storage[task.name] == h < |b.caches|
            && b.caches[h].entries == PutEntry(s.caches[h].entries, Entry(task.write.key, At(now), task.write.generation))
  {
    assert Holds(s.tasks[t].phase, s.tasks[t].phase.cache);
    StepKeeps(s, Put(t, now));
    a := Apply(s, Put(t, now));
    RunElsewhere(a, mid, t, s.tasks[t].name);
    b := After(a, mid);
  }
}
