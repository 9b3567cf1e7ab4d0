/** What the generation and the clearing flag of `frontend/public/sw.js` keep out: writes
  * queued before a clear, and writes scheduled during one; and what a clear deletes. */
module SwGenerations {
  import opened Common
  import opened SwCache
  import opened SwProtocol

  // ---------- queued writes ----------

  /** A queued write begins only under the generation it was scheduled under. */
  lemma BeginsUnderItsGeneration(s: State, step: Step, t: nat)
    requires Enabled(s, step) && t < |s.tasks| && s.tasks[t].phase.Queued?
    requires t < |Apply(s, step).tasks| && Active(Apply(s, step).tasks[t].phase)
    ensures s.tasks[t].write.generation == s.cacheGeneration
  {
    hide PutEntry, Limited;
  }

  /** Under that generation it does begin, and by writing if its request is a GET whose
    * answer is not a 206. */
  lemma BeginsToWrite(s: State, t: nat)
    requires Enabled(s, StartTask(t)) && s.tasks[t].write.generation == s.cacheGeneration
    ensures var task := Apply(s, StartTask(t)).tasks[t];
            && Active(task.phase)
            && (task.phase == OpeningToPut <==> task.write.isGet && task.write.status != 206)
  {
  }

  predicate Outdated(s: State, t: nat) {
    t < |s.tasks| && !Active(s.tasks[t].phase) && s.tasks[t].write.generation < s.cacheGeneration
  }

  lemma StaysOutdated(s: State, step: Step, t: nat)
    requires Enabled(s, step) && Outdated(s, t)
    ensures Outdated(Apply(s, step), t)
  {
    hide PutEntry, Limited;
    if TaskOf(step) != Some(t) {
      TaskFrame(s, step, t);
    }
  }

  /** A write still queued when a clear starts never runs: not under that clear, whether it
    * succeeds or fails, and not under a later one. */
  lemma QueuedBeforeClearNeverRuns(s: State, t: nat, steps: seq<Step>)
    requires Inv(s) && t < |s.tasks| && s.tasks[t].phase.Queued?
    requires IsRun(Apply(s, StartClear), steps)
    ensures var end := After(Apply(s, StartClear), steps);
            t < |end.tasks| && !Active(end.tasks[t].phase)
  {
    OutdatedNeverRuns(Apply(s, StartClear), t, steps);
  }

  lemma {:induction false} OutdatedNeverRuns(s: State, t: nat, steps: seq<Step>)
    requires Outdated(s, t) && IsRun(s, steps)
    ensures Outdated(After(s, steps), t)
    decreases |steps|
  {
    hide Enabled, Apply, Outdated;
    if steps != [] {
      StaysOutdated(s, steps[0], t);
      OutdatedNeverRuns(Apply(s, steps[0]), t, steps[1..]);
    }
  }

  // ---------- scheduling ----------

  /** A task is born only by scheduling a write while no clear holds the flag up: as it was
    * asked for, under the generation of now, behind the last task of its cache. */
  lemma BornOutsideClears(s: State, step: Step)
    requires Enabled(s, step) && |Apply(s, step).tasks| > |s.tasks|
    ensures !s.cacheClearing && step.Schedule?
    ensures var s' := Apply(s, step); var n := |s.tasks|;
            && s'.tasks[..n] == s.tasks && |s'.tasks| == n + 1
            && s'.tasks[n].write == Write(step.isGet, step.status, step.key, s.cacheGeneration)
            && s'.tasks[n].name == step.name && s'.tasks[n].maxSize == step.maxSize && s'.tasks[n].maxAge == step.maxAge
            && s'.tasks[n].phase == Queued
            && (step.name in s.cacheWrites ==> s'.tasks[n].previous == Some(s.cacheWrites[step.name]))
            && step.name in s'.cacheWrites && s'.cacheWrites[step.name] == n
  {
    hide PutEntry, Limited;
  }

  // ---------- what a clear deletes ----------

  /** From here on the run deletes, for this clear, every one of the names. */
  ghost predicate Deleted(steps: seq<Step>, c: nat, names: set<string>) {
    forall name :: name in names ==> DeleteCache(c, name) in steps
  }

  /** At `j` the clear lists the caches, and deletes every one of them afterwards. */
  ghost predicate ListsAndDeletes(s: State, steps: seq<Step>, c: nat, j: nat)
    requires IsRun(s, steps)
  {
    && j < |steps| && steps[j] == ListCaches(c) && IsRun(s, steps[..j])
    && Deleted(steps[j + 1..], c, After(s, steps[..j]).storage.Keys)
  }

  predicate IsOf(step: Step, c: nat) {
    || step == ListCaches(c) || (step.DeleteCache? && step.c == c) || step == Report(c) || step == FailClear(c)
    || step == FinishClear(c)
  }

  /** Only its own steps move a clear on. */
  lemma ClearFrame(s: State, step: Step, c: nat)
    requires Enabled(s, step) && c < |s.clears| && !IsOf(step, c)
    ensures c < |Apply(s, step).clears| && Apply(s, step).clears[c] == s.clears[c]
  {
    hide PutEntry, Limited, Cacheable;
  }

  /** Where each of them moves it. */
  ghost predicate MovesTo(s: State, step: Step, c: nat, to: ClearPhase)
    requires c < |s.clears|
  {
    var phase := s.clears[c].phase;
    && (step == ListCaches(c) ==> !phase.Reported? && !phase.Done? && (phase.Deleting? ==> phase == Deleting(false, {}))
                                  && to == Deleting(phase.Deleting?, s.storage.Keys))
    && (step.DeleteCache? && step.c == c ==> phase.Deleting? && to == Deleting(phase.again, phase.names - {step.name}))
    && (step == Report(c) ==> phase == Deleting(true, {}))
    && (step == FailClear(c) ==> to == Reported(false))
    && (step == FinishClear(c) ==> phase.Reported? && to == Done(phase.success))
    && (!IsOf(step, c) ==> to == phase)
  }

  lemma ClearMoves(s: State, step: Step, c: nat)
    requires Enabled(s, step) && c < |s.clears|
    ensures c < |Apply(s, step).clears| && MovesTo(s, step, c, Apply(s, step).clears[c].phase)
  {
    hide PutEntry, Limited, Cacheable, Scheduled, Started, Written, Evicted, Opened, CleanedUp, ClearStarted;
    if !IsOf(step, c) { ClearFrame(s, step, c); }
  }

  lemma {:induction false} FailureStays(s: State, steps: seq<Step>, c: nat)
    requires IsRun(s, steps) && c < |s.clears| && Failed(s.clears[c].phase)
    ensures !Succeeded(After(s, steps), c)
    decreases |steps|
  {
    hide Enabled, Apply;
    if steps != [] {
      ClearMoves(s, steps[0], c);
      FailureStays(Apply(s, steps[0]), steps[1..], c);
    }
  }

  lemma {:induction false} SecondPassDeletes(s: State, steps: seq<Step>, c: nat)
    requires IsRun(s, steps) && c < |s.clears| && s.clears[c].phase.Deleting? && s.clears[c].phase.again
    requires Succeeded(After(s, steps), c)
    ensures Deleted(steps, c, s.clears[c].phase.names)
    decreases |steps|
  {
    hide Enabled, Apply;
    if steps != [] {
      var next := Apply(s, steps[0]);
      ClearMoves(s, steps[0], c);
      if steps[0] == FailClear(c) {
        FailureStays(next, steps[1..], c);
      } else if steps[0] != Report(c) {
        SecondPassDeletes(next, steps[1..], c);
      }
      assert forall step :: step in steps[1..] ==> step in steps;
    }
  }

  lemma ListsLater(s: State, steps: seq<Step>, c: nat, j: nat)
    requires steps != [] && IsRun(s, steps) && ListsAndDeletes(Apply(s, steps[0]), steps[1..], c, j)
    ensures ListsAndDeletes(s, steps, c, j + 1)
  {
    hide Enabled, Apply, Deleted;
    assert steps[..j + 1][1..] == steps[1..][..j] && steps[1..][j + 1..] == steps[j + 1 + 1..];
  }

  lemma {:induction false} FirstPassDeletes(s: State, steps: seq<Step>, c: nat) returns (j: nat)
    requires IsRun(s, steps) && c < |s.clears| && s.clears[c].phase.Deleting? && !s.clears[c].phase.again
    requires Succeeded(After(s, steps), c)
    ensures j < |steps| && ListsAndDeletes(s, steps, c, j) && Deleted(steps[..j], c, s.clears[c].phase.names)
    decreases |steps|
  {
    hide Enabled, Apply;
    var next, rest := Apply(s, steps[0]), steps[1..];
    ClearMoves(s, steps[0], c);
    if steps[0] == ListCaches(c) {
      j := 0;
      SecondPassDeletes(next, rest, c);
      assert steps[..0] == [] && steps[0 + 1..] == rest;
    } else {
      if steps[0] == FailClear(c) { FailureStays(next, rest, c); }
      j := FirstPassDeletes(next, rest, c);
      ListsLater(s, steps, c, j);
      j := j + 1;
      assert steps[..j] == [steps[0]] + rest[..j - 1];
    }
  }

  /** The second listing comes after all that was listed the first time is deleted. */
  ghost predicate TwoPasses(s: State, steps: seq<Step>, c: nat, i: nat, j: nat)
    requires IsRun(s, steps)
  {
    && i < j && ListsAndDeletes(s, steps, c, i) && ListsAndDeletes(s, steps, c, j)
    && Deleted(steps[i + 1..j], c, After(s, steps[..i]).storage.Keys)
  }

  lemma TwoPassesLater(s: State, steps: seq<Step>, c: nat, i: nat, j: nat)
    requires steps != [] && IsRun(s, steps) && TwoPasses(Apply(s, steps[0]), steps[1..], c, i, j)
    ensures TwoPasses(s, steps, c, i + 1, j + 1)
  {
    hide Enabled, Apply, Deleted;
    ListsLater(s, steps, c, i);
    ListsLater(s, steps, c, j);
    assert steps[i + 1 + 1..j + 1] == steps[1..][i + 1..j];
    assert steps[..i + 1][1..] == steps[1..][..i];
  }

  lemma TwoPassesNow(s: State, steps: seq<Step>, c: nat, k: nat)
    requires steps != [] && IsRun(s, steps) && steps[0] == ListCaches(c)
    requires ListsAndDeletes(Apply(s, steps[0]), steps[1..], c, k)
    requires Deleted(steps[1..], c, s.storage.Keys) && Deleted(steps[1..][..k], c, s.storage.Keys)
    ensures TwoPasses(s, steps, c, 0, k + 1)
  {
    hide Enabled, Apply, Deleted;
    ListsLater(s, steps, c, k);
    assert steps[..0] == [] && steps[0 + 1..] == steps[1..] && steps[1..k + 1] == steps[1..][..k];
  }

  /** A clear that goes on to report success lists the caches twice, the second time after it
    * has deleted all it listed the first time, and deletes all it listed the second time. */
  lemma {:induction false} SuccessTakesTwoPasses(s: State, steps: seq<Step>, c: nat) returns (i: nat, j: nat)
    requires IsRun(s, steps) && c < |s.clears| && s.clears[c].phase.Waiting?
    requires Succeeded(After(s, steps), c)
    ensures TwoPasses(s, steps, c, i, j)
    decreases |steps|
  {
    hide Enabled, Apply, TwoPasses, ListsAndDeletes;
    var next, rest := Apply(s, steps[0]), steps[1..];
    ClearMoves(s, steps[0], c);
    if steps[0] == ListCaches(c) {
      var k := FirstPassDeletes(next, rest, c);
      assert forall step :: step in rest[..k] ==> step in rest;
      TwoPassesNow(s, steps, c, k);
      i, j := 0, k + 1;
    } else {
      if steps[0] == FailClear(c) { FailureStays(next, rest, c); }
      i, j := SuccessTakesTwoPasses(next, rest, c);
      TwoPassesLater(s, steps, c, i, j);
      i, j := i + 1, j + 1;
    }
  }
}
