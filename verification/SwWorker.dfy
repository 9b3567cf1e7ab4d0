/** The module-level variables of `frontend/public/sw.js` and the turns that change
  * them. Every method is one synchronous stretch of the script; its contract ties
  * the new variables to a step of the protocol, whose runs `SwProtocol` reasons about. */
module SwWorker {
  import opened Common
  import opened SwCache
  import opened SwProtocol

  class ServiceWorker {
    var cacheWrites: map<string, nat>
    var cacheGeneration: nat
    var cacheClearing: bool
    // the browser's side: CacheStorage, and the promises that are in flight
    var storage: map<string, nat>
    var caches: seq<CacheObject>
    var tasks: seq<Task>
    var clears: seq<Clear>

    ghost function View(): State
      reads this
    {
      State(cacheWrites, cacheGeneration, cacheClearing, storage, caches, tasks, clears)
    }

    constructor (storage: map<string, nat>, caches: seq<CacheObject>)
      requires LinksInv(storage, caches) && KeysInv(caches)
      ensures Init(View()) && Inv(View())
    {
      cacheWrites, cacheGeneration, cacheClearing := map[], 0, false;
      this.storage, this.caches := storage, caches;
      tasks, clears := [], [];
      new;
      InitInv(View());
    }

    method ScheduleCacheWrite(key: string, isGet: bool, status: nat, name: string, maxSize: nat, maxAge: nat)
      requires Inv(View())
      modifies this
      ensures Inv(View())
      ensures View() == Apply(old(View()), Schedule(key, isGet, status, name, maxSize, maxAge))
      ensures old(cacheClearing) ==> tasks == old(tasks) && cacheWrites == old(cacheWrites)
      ensures !old(cacheClearing) ==>
                && |tasks| == |old(tasks)| + 1 && tasks[..|old(tasks)|] == old(tasks)
                && tasks[|old(tasks)|].write.generation == cacheGeneration && tasks[|old(tasks)|].phase == Queued
                && cacheWrites == old(cacheWrites)[name := |old(tasks)|]
    {
      ghost var before := View();
      if !cacheClearing {
        var generation := cacheGeneration;
        var previous := if name in cacheWrites then Some(cacheWrites[name]) else None;
        var writing := |tasks|;
        tasks := tasks + [Task(Write(isGet, status, key, generation), name, maxSize, maxAge, previous, Queued, false)];
        cacheWrites := cacheWrites[name := writing];
      }
      StepKeeps(before, Schedule(key, isGet, status, name, maxSize, maxAge));
    }

    /** The first turn of a queued write: the generation check, then the checks of
      * `cacheWithTimestamp` that come before its first await. */
    method BeginWrite(t: nat)
      requires Inv(View()) && Enabled(View(), StartTask(t))
      modifies this
      ensures Inv(View()) && View() == Apply(old(View()), StartTask(t))
      ensures t < |tasks| && tasks[t].write == old(tasks)[t].write
      ensures tasks[t].write.generation != cacheGeneration ==> tasks[t].phase == Settled
      ensures tasks[t].write.generation == cacheGeneration ==>
                tasks[t].phase == if tasks[t].write.isGet && tasks[t].write.status != 206 then OpeningToPut else OpeningToLimit
    {
      ghost var before := View();
      var task := tasks[t];
      if task.write.generation != cacheGeneration {
        tasks := tasks[t := task.(phase := Settled)];
      } else if !task.write.isGet || task.write.status == 206 {
        tasks := tasks[t := task.(phase := OpeningToLimit)];
      } else {
        tasks := tasks[t := task.(phase := OpeningToPut)];
      }
      StepKeeps(before, StartTask(t));
    }

    method CleanUp(t: nat)
      requires Inv(View()) && Enabled(View(), Cleanup(t))
      modifies this
      ensures Inv(View()) && View() == Apply(old(View()), Cleanup(t))
    {
      ghost var before := View();
      var name := tasks[t].name;
      tasks := tasks[t := tasks[t].(cleaned := true)];
      if name in cacheWrites && cacheWrites[name] == t {
        cacheWrites := cacheWrites - {name};
      }
      StepKeeps(before, Cleanup(t));
    }

    /** The synchronous part of the `CLEAR_CACHE` handler. */
    method OnClearCache() returns (clear: nat)
      requires Inv(View())
      modifies this
      ensures Inv(View()) && View() == Apply(old(View()), StartClear)
      ensures clear == |old(clears)| && cacheClearing && cacheGeneration == old(cacheGeneration) + 1
      ensures clear < |clears| && clears[clear].generation == cacheGeneration && clears[clear].phase == Waiting
      ensures clears[clear].awaited == set name | name in cacheWrites :: cacheWrites[name]
    {
      ghost var before := View();
      cacheGeneration := cacheGeneration + 1;
      var generation := cacheGeneration;
      cacheClearing := true;
      var awaited := set name | name in cacheWrites :: cacheWrites[name];
      clear := |clears|;
      clears := clears + [Clear(generation, awaited, Waiting)];
      StepKeeps(before, StartClear);
    }

    /** The `finally` of a clear. */
    method SettleClear(c: nat)
      requires Inv(View()) && Enabled(View(), FinishClear(c))
      modifies this
      ensures Inv(View()) && View() == Apply(old(View()), FinishClear(c))
      ensures cacheClearing == (old(cacheClearing) && old(clears)[c].generation != cacheGeneration)
    {
      ghost var before := View();
      var generation := clears[c].generation;
      clears := clears[c := clears[c].(phase := Done(clears[c].phase.success))];
      if generation == cacheGeneration {
        cacheClearing := false;
      }
      StepKeeps(before, FinishClear(c));
    }
  }
}
