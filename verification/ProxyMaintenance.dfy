/** The maintenance cache of `proxy/src/main.rs`: `read_maintenance_cached` checks a
  * timestamp under the read lock, again under the write lock, and reads the file only if
  * both found it old. Callers run concurrently and may be dropped at any await; the clock
  * never goes back. Times are milliseconds. */
module ProxyMaintenance {
  import opened Common

  const TTL: nat := 250

  datatype File = File(active: bool, details: string)

  const DEFAULT := File(false, "")

  /** What a disk read found. */
  datatype Disk = Missing | Parsed(file: File) | Unreadable

  predicate Fresh(loadedAt: Option<nat>, now: nat) {
    loadedAt.Some? && now - loadedAt.value < TTL
  }

  function Load(cached: File, disk: Disk): File {
    match disk
    case Missing => DEFAULT
    case Parsed(file) => file
    case Unreadable => if cached.active then cached else DEFAULT.(active := true)
  }

  // ---------- callers, the lock, and the log ----------

  datatype Phase = Arrived | Waiting | Reading | Over

  datatype End = Pending | Done(at: nat, disk: Disk) | Dropped(at: nat)

  /** A disk read, from the second check to the moment its result is stored. */
  datatype Read = Read(began: nat, end: End)

  /** An answer, and how many disk reads had begun when it was given. */
  datatype Answer = Answer(at: nat, file: File, seen: nat)

  datatype State = State(now: nat, loadedAt: Option<nat>, value: File,
                         callers: seq<Phase>, writer: Option<nat>, log: seq<Read>, answers: seq<Answer>)

  const START := State(0, None, DEFAULT, [], None, [], [])

  datatype Step =
    | Tick(elapsed: nat)
    | Call
    | Check(id: nat)                // the fast path, under the read lock
    | Acquire(id: nat)              // the write lock and the second check
    | Finish(id: nat, disk: Disk)   // the read returns, the cache is stored, the lock is released
    | Drop(id: nat)                 // the caller's future is dropped

  predicate Enabled(s: State, step: Step) {
    match step
    case Tick(_) => true
    case Call => true
    case Check(id) => id < |s.callers| && s.callers[id].Arrived? && s.writer.None?
    case Acquire(id) => id < |s.callers| && s.callers[id].Waiting? && s.writer.None?
    case Finish(id, _) => id < |s.callers| && s.callers[id].Reading? && s.log != []
    case Drop(id) => id < |s.callers| && !s.callers[id].Over? && (s.callers[id].Reading? ==> s.log != [])
  }

  function Ended(log: seq<Read>, end: End): seq<Read>
    requires log != []
  {
    log[..|log| - 1] + [log[|log| - 1].(end := end)]
  }

  function Apply(s: State, step: Step): State
    requires Enabled(s, step)
  {
    match step
    case Tick(elapsed) => s.(now := s.now + elapsed)
    case Call => s.(callers := s.callers + [Arrived])
    case Check(id) =>
      if Fresh(s.loadedAt, s.now) then Answered(s, id) else s.(callers := s.callers[id := Waiting])
    case Acquire(id) =>
      if Fresh(s.loadedAt, s.now) then Answered(s, id)
      else s.(callers := s.callers[id := Reading], writer := Some(id), log := s.log + [Read(s.now, Pending)])
    case Finish(id, disk) =>
      Answered(s.(loadedAt := Some(s.now), value := Load(s.value, disk), writer := None,
                  log := Ended(s.log, Done(s.now, disk))), id)
    case Drop(id) =>
      if s.callers[id].Reading? then
        s.(callers := s.callers[id := Over], writer := None, log := Ended(s.log, Dropped(s.now)))
      else s.(callers := s.callers[id := Over])
  }

  function Answered(s: State, id: nat): State
    requires id < |s.callers|
  {
    s.(callers := s.callers[id := Over], answers := s.answers + [Answer(s.now, s.value, |s.log|)])
  }

  // ---------- what the log says the cache must be ----------

  /** The last read that was stored. */
  function LastDone(log: seq<Read>): (end: Option<End>)
    ensures end.Some? ==> end.value.Done?
  {
    if log == [] then None
    else if log[|log| - 1].end.Done? then Some(log[|log| - 1].end)
    else LastDone(log[..|log| - 1])
  }

  /** The file as the stored reads leave it, one after another. */
  function Replay(log: seq<Read>): File {
    if log == [] then DEFAULT
    else
      var before, end := Replay(log[..|log| - 1]), log[|log| - 1].end;
      if end.Done? then Load(before, end.disk) else before
  }

  // ---------- the invariant ----------

  /** The second read begins when the first is over, and a TTL later if that one was stored. */
  predicate Apart(first: Read, second: Read) {
    match first.end
    case Pending => false
    case Done(at, _) => at + 250 <= second.began
    case Dropped(at) => at <= second.began
  }

  ghost predicate AllApart(log: seq<Read>) {
    forall i, j :: 0 <= i < j < |log| ==> Apart(log[i], log[j])
  }

  predicate InTime(read: Read, now: nat) {
    read.began <= now && (read.end.Pending? || read.began <= read.end.at <= now)
  }

  ghost predicate AllInTime(log: seq<Read>, now: nat) {
    forall i :: 0 <= i < |log| ==> InTime(log[i], now)
  }

  predicate LockInv(s: State) {
    && (forall id :: 0 <= id < |s.callers| ==> (s.callers[id].Reading? <==> s.writer == Some(id)))
    && (s.writer.Some? <==> s.log != [] && s.log[|s.log| - 1].end.Pending?)
    && (s.writer.Some? ==> s.writer.value < |s.callers|)
  }

  predicate CacheInv(s: State) {
    && s.value == Replay(s.log)
    && (s.loadedAt.Some? <==> LastDone(s.log).Some?)
    && (s.loadedAt.Some? ==> s.loadedAt.value == LastDone(s.log).value.at)
  }

  /** An answer is the cache as the reads begun before it leave it, the last of them stored
    * less than a TTL ago. */
  predicate AnswerInv(a: Answer, log: seq<Read>) {
    && 0 < a.seen <= |log| && !log[a.seen - 1].end.Pending?
    && a.file == Replay(log[..a.seen])
    && LastDone(log[..a.seen]).Some? && a.at < LastDone(log[..a.seen]).value.at + 250
  }

  ghost predicate AnswersInv(answers: seq<Answer>, log: seq<Read>) {
    forall k :: 0 <= k < |answers| ==> AnswerInv(answers[k], log)
  }

  ghost predicate Inv(s: State) {
    LockInv(s) && CacheInv(s) && AllInTime(s.log, s.now) && AllApart(s.log) && AnswersInv(s.answers, s.log)
  }

  // ---------- every step keeps it ----------

  /** No stored read ended after the last stored one. */
  lemma {:induction false} LastDoneIsLatest(log: seq<Read>, i: nat, now: nat)
    requires AllApart(log) && AllInTime(log, now) && i < |log| && log[i].end.Done?
    ensures LastDone(log).Some? && log[i].end.at <= LastDone(log).value.at
  {
    var last := |log| - 1;
    if i < last {
      assert Apart(log[i], log[last]) && InTime(log[last], now);
      if !log[last].end.Done? {
        LastDoneIsLatest(log[..last], i, now);
      }
    }
  }

  /** A read may begin when the cache is not fresh and no read is pending. */
  lemma BeginKeeps(s: State)
    requires CacheInv(s) && AllInTime(s.log, s.now) && AllApart(s.log) && LockInv(s)
    requires s.writer.None? && !Fresh(s.loadedAt, s.now)
    ensures AllApart(s.log + [Read(s.now, Pending)])
  {
    var log' := s.log + [Read(s.now, Pending)];
    forall i, j | 0 <= i < j < |log'| ensures Apart(log'[i], log'[j]) {
      if j == |s.log| {
        assert InTime(s.log[i], s.now);
        if s.log[i].end.Done? {
          LastDoneIsLatest(s.log, i, s.now);
        } else if i < |s.log| - 1 {
          assert Apart(s.log[i], s.log[|s.log| - 1]);
        }
      } else {
        assert Apart(s.log[i], s.log[j]);
      }
    }
  }

  lemma EndKeeps(log: seq<Read>, end: End, now: nat)
    requires log != [] && AllApart(log) && AllInTime(log, now) && log[|log| - 1].end.Pending?
    requires !end.Pending? && end.at == now
    ensures AllApart(Ended(log, end)) && AllInTime(Ended(log, end), now)
  {
    var log' := Ended(log, end);
    forall i, j | 0 <= i < j < |log'| ensures Apart(log'[i], log'[j]) {
      assert Apart(log[i], log[j]);
    }
    assert InTime(log[|log| - 1], now);
    forall i | 0 <= i < |log'| ensures InTime(log'[i], now) {
      assert InTime(log[i], now);
    }
  }

  /** Earlier answers are about reads that are over, which nothing changes. */
  lemma AnswersStay(answers: seq<Answer>, log: seq<Read>, log': seq<Read>)
    requires AnswersInv(answers, log)
    requires |log| <= |log'|
    requires forall i :: 0 <= i < |log| && !log[i].end.Pending? ==> log'[i] == log[i]
    requires forall i :: 0 <= i < |log| - 1 ==> !log[i].end.Pending?
    ensures AnswersInv(answers, log')
  {
    forall k | 0 <= k < |answers| ensures AnswerInv(answers[k], log') {
      assert AnswerInv(answers[k], log);
      assert log'[..answers[k].seen] == log[..answers[k].seen];
    }
  }

  lemma OnlyLastPends(log: seq<Read>)
    requires AllApart(log)
    ensures forall i :: 0 <= i < |log| - 1 ==> !log[i].end.Pending?
  {
    forall i | 0 <= i < |log| - 1 ensures !log[i].end.Pending? {
      assert Apart(log[i], log[|log| - 1]);
    }
  }

  lemma AnswerKeeps(s: State, id: nat)
    requires Inv(s) && id < |s.callers| && !s.callers[id].Reading? && s.writer.None? && Fresh(s.loadedAt, s.now)
    ensures Inv(Answered(s, id))
  {
    assert s.log[..|s.log|] == s.log;
    assert AnswerInv(Answer(s.now, s.value, |s.log|), s.log);
  }

  /** The caller that holds the lock ends its read. */
  lemma EndReadKeeps(s: State, id: nat, end: End)
    requires Inv(s) && id < |s.callers| && s.callers[id].Reading? && !end.Pending? && end.at == s.now
    ensures s.log != []
    ensures var log' := Ended(s.log, end);
            Inv(s.(callers := s.callers[id := Over], writer := None, log := log',
                   loadedAt := if end.Done? then Some(s.now) else s.loadedAt,
                   value := if end.Done? then Load(s.value, end.disk) else s.value))
  {
    var log' := Ended(s.log, end);
    assert log'[..|log'| - 1] == s.log[..|s.log| - 1];
    EndKeeps(s.log, end, s.now);
    OnlyLastPends(s.log);
    AnswersStay(s.answers, s.log, log');
  }

  lemma BeginReadKeeps(s: State, id: nat)
    requires Inv(s) && Enabled(s, Acquire(id)) && !Fresh(s.loadedAt, s.now)
    ensures Inv(Apply(s, Acquire(id)))
  {
    var log' := s.log + [Read(s.now, Pending)];
    assert log'[..|s.log|] == s.log;
    BeginKeeps(s);
    OnlyLastPends(s.log);
    AnswersStay(s.answers, s.log, log');
    forall i | 0 <= i < |log'| ensures InTime(log'[i], s.now) {
      if i < |s.log| { assert InTime(s.log[i], s.now); }
    }
  }

  lemma TickKeeps(s: State, elapsed: nat)
    requires Inv(s)
    ensures Inv(s.(now := s.now + elapsed))
  {
    forall i | 0 <= i < |s.log| ensures InTime(s.log[i], s.now + elapsed) {
      assert InTime(s.log[i], s.now);
    }
  }

  lemma StepKeeps(s: State, step: Step)
    requires Inv(s) && Enabled(s, step)
    ensures Inv(Apply(s, step))
  {
    hide AllApart, AllInTime, AnswersInv, LastDone, Replay, Load;
    match step
    case Tick(elapsed) => TickKeeps(s, elapsed);
    case Call =>
    case Check(id) => if Fresh(s.loadedAt, s.now) { AnswerKeeps(s, id); }
    case Acquire(id) => if Fresh(s.loadedAt, s.now) { AnswerKeeps(s, id); } else { BeginReadKeeps(s, id); }
    case Finish(id, disk) =>
      EndReadKeeps(s, id, Done(s.now, disk));
      var s' := s.(callers := s.callers[id := Over], writer := None, log := Ended(s.log, Done(s.now, disk)),
                   loadedAt := Some(s.now), value := Load(s.value, disk));
      AnswerKeeps(s', id);
      assert s.callers[id := Over] == s'.callers[id := Over];
    case Drop(id) => if s.callers[id].Reading? { EndReadKeeps(s, id, Dropped(s.now)); }
  }

  // ---------- runs ----------

  ghost predicate IsRun(s: State, steps: seq<Step>)
    decreases |steps|
  {
    steps != [] ==> Enabled(s, steps[0]) && IsRun(Apply(s, steps[0]), steps[1..])
  }

  ghost function After(s: State, steps: seq<Step>): State
    requires IsRun(s, steps)
    decreases |steps|
  {
    if steps == [] then s else After(Apply(s, steps[0]), steps[1..])
  }

  lemma {:induction false} RunKeeps(s: State, steps: seq<Step>)
    requires Inv(s) && IsRun(s, steps)
    ensures Inv(After(s, steps))
    decreases |steps|
  {
    if steps != [] {
      StepKeeps(s, steps[0]);
      RunKeeps(Apply(s, steps[0]), steps[1..]);
    }
  }

  lemma Reachable(steps: seq<Step>)
    requires IsRun(START, steps)
    ensures Inv(After(START, steps))
  {
    assert Inv(START);
    RunKeeps(START, steps);
  }

  /** Two disk reads never overlap; and when the second began sooner than a TTL after the
    * first ended, the first one's caller was dropped and its result never stored. */
  lemma ReadsAreApart(steps: seq<Step>, i: nat, j: nat)
    requires IsRun(START, steps) && i < j < |After(START, steps).log|
    ensures var first, second := After(START, steps).log[i], After(START, steps).log[j];
            && !first.end.Pending? && first.end.at <= second.began
            && (second.began < first.end.at + 250 ==> first.end.Dropped?)
  {
    Reachable(steps);
    assert Apart(After(START, steps).log[i], After(START, steps).log[j]);
  }

  ghost predicate Reaches(s: State, log: seq<Read>) {
    exists steps :: IsRun(s, steps) && After(s, steps).log == log
  }

  lemma ReachesItself(s: State)
    ensures Reaches(s, s.log)
  {
    assert IsRun(s, []) && After(s, []) == s;
  }

  lemma ReachesVia(s: State, step: Step, next: State, log: seq<Read>)
    requires Enabled(s, step) && Apply(s, step) == next && Reaches(next, log)
    ensures Reaches(s, log)
  {
    var rest :| IsRun(next, rest) && After(next, rest).log == log;
    assert ([step] + rest)[1..] == rest;
    assert IsRun(s, [step] + rest) && After(s, [step] + rest).log == log;
  }

  /** A dropped read does not hold the next one back: wherever a run has come to, if its last
    * read was dropped then no caller is answered from the cache, and the next one to get the
    * lock begins a read at once. */
  lemma DroppedReadIsRepeated(steps: seq<Step>, id: nat)
    requires IsRun(START, steps) && After(START, steps).log != []
    requires var log := After(START, steps).log; log[|log| - 1].end.Dropped?
    ensures var s := After(START, steps);
            && (Enabled(s, Check(id)) ==> Apply(s, Check(id)) == s.(callers := s.callers[id := Waiting]))
            && (Enabled(s, Acquire(id)) ==>
                  Apply(s, Acquire(id)).log == s.log + [Read(s.now, Pending)] && Apply(s, Acquire(id)).answers == s.answers)
  {
    Reachable(steps);
    StaleAfterDrop(After(START, steps));
  }

  lemma StaleAfterDrop(s: State)
    requires Inv(s) && s.log != [] && s.log[|s.log| - 1].end.Dropped?
    ensures !Fresh(s.loadedAt, s.now)
  {
    var last := |s.log| - 1;
    if s.loadedAt.Some? {
      LastDoneIsInLog(s.log);
      var i :| 0 <= i < |s.log| && s.log[i].end == LastDone(s.log).value;
      assert Apart(s.log[i], s.log[last]) && InTime(s.log[last], s.now);
    }
  }

  lemma {:induction false} LastDoneIsInLog(log: seq<Read>)
    requires LastDone(log).Some?
    ensures exists i :: 0 <= i < |log| && log[i].end == LastDone(log).value
  {
    if !log[|log| - 1].end.Done? {
      LastDoneIsInLog(log[..|log| - 1]);
    }
  }

  /** Such a state is reached, and the two reads may begin at the same moment. */
  lemma ReadMayBeRepeatedAtOnce()
    ensures Reaches(START, [Read(0, Dropped(0)), Read(0, Pending)])
  {
    hide Reaches;
    var s1 := START.(callers := [Arrived]);
    var s2 := START.(callers := [Arrived, Arrived]);
    var s3 := START.(callers := [Waiting, Arrived]);
    var s4 := START.(callers := [Waiting, Waiting]);
    var s5 := START.(callers := [Reading, Waiting], writer := Some(0), log := [Read(0, Pending)]);
    var s6 := START.(callers := [Over, Waiting], log := [Read(0, Dropped(0))]);
    var s7 := Apply(s6, Acquire(1));
    assert START.callers + [Arrived] == s1.callers && s4.log + [Read(0, Pending)] == s5.log;
    assert s1.callers + [Arrived] == s2.callers && s2.callers[0 := Waiting] == s3.callers;
    assert s3.callers[1 := Waiting] == s4.callers && s4.callers[0 := Reading] == s5.callers;
    assert s5.callers[0 := Over] == s6.callers && Ended(s5.log, Dropped(0)) == s6.log;
    assert s6.log + [Read(0, Pending)] == [Read(0, Dropped(0)), Read(0, Pending)];
    ReachesItself(s7);
    ReachesVia(s6, Acquire(1), s7, s7.log);
    ReachesVia(s5, Drop(0), s6, s7.log);
    ReachesVia(s4, Acquire(0), s5, s7.log);
    ReachesVia(s3, Check(1), s4, s7.log);
    ReachesVia(s2, Check(0), s3, s7.log);
    ReachesVia(s1, Call, s2, s7.log);
    ReachesVia(START, Call, s1, s7.log);
  }

  // ---------- what callers are told ----------

  lemma {:induction false} ReplayLast(log: seq<Read>) returns (before: File)
    requires LastDone(log).Some?
    ensures Replay(log) == Load(before, LastDone(log).value.disk)
  {
    if log[|log| - 1].end.Done? {
      before := Replay(log[..|log| - 1]);
    } else {
      before := ReplayLast(log[..|log| - 1]);
    }
  }

  /** Every answer is under a TTL old, and it is inactive exactly when the last stored read
    * found the file missing, or parsed it as inactive. */
  lemma InactiveIsEarned(steps: seq<Step>, k: nat)
    requires IsRun(START, steps) && k < |After(START, steps).answers|
    ensures var s := After(START, steps); var a := s.answers[k];
            && a.seen <= |s.log| && LastDone(s.log[..a.seen]).Some?
            && var end := LastDone(s.log[..a.seen]).value;
            && a.at < end.at + 250
            && (!a.file.active <==> end.disk.Missing? || (end.disk.Parsed? && !end.disk.file.active))
            && (end.disk.Parsed? ==> a.file == end.disk.file)
            && (end.disk.Missing? ==> a.file == File(false, ""))
  {
    Reachable(steps);
    var s := After(START, steps);
    assert AnswerInv(s.answers[k], s.log);
    var before := ReplayLast(s.log[..s.answers[k].seen]);
  }

  /** From a failed read on, as long as no read succeeds, the notice that was active stays
    * word for word; if none was, a bare active one takes its place. */
  lemma {:induction false} ReplayFailsClosed(log: seq<Read>, i: nat)
    requires i < |log| && log[i].end.Done? && log[i].end.disk.Unreadable?
    requires forall j :: i < j < |log| && log[j].end.Done? ==> log[j].end.disk.Unreadable?
    ensures Replay(log) == if Replay(log[..i]).active then Replay(log[..i]) else DEFAULT.(active := true)
  {
    var last := |log| - 1;
    if i < last {
      ReplayFailsClosed(log[..last], i);
      assert log[..last][..i] == log[..i];
    }
  }

  /** After a failed read every answer is active until a read succeeds. */
  lemma FailsClosed(steps: seq<Step>, i: nat, k: nat)
    requires IsRun(START, steps) && k < |After(START, steps).answers|
    requires i < After(START, steps).answers[k].seen <= |After(START, steps).log|
    requires After(START, steps).log[i].end.Done? && After(START, steps).log[i].end.disk.Unreadable?
    requires forall j :: i < j < After(START, steps).answers[k].seen && After(START, steps).log[j].end.Done? ==>
               After(START, steps).log[j].end.disk.Unreadable?
    ensures var s := After(START, steps); var before := Replay(s.log[..i]);
            && s.answers[k].file.active
            && s.answers[k].file == if before.active then before else File(true, "")
  {
    Reachable(steps);
    var s := After(START, steps);
    assert AnswerInv(s.answers[k], s.log);
    var seen := s.log[..s.answers[k].seen];
    ReplayFailsClosed(seen, i);
    assert seen[..i] == s.log[..i];
  }

  // ---------- the function itself ----------

  /** `maint_cache` with its lock, and `read_maintenance_cached` cut at its awaits. */
  class MaintenanceCache {
    var loadedAt: Option<nat>
    var value: File
    // the runtime's side: the clock, the callers, the lock's writer, and the log
    var now: nat
    var callers: seq<Phase>
    var writer: Option<nat>
    var log: seq<Read>
    var answers: seq<Answer>

    ghost function View(): State
      reads this
    {
      State(now, loadedAt, value, callers, writer, log, answers)
    }

    constructor ()
      ensures View() == START && Inv(View())
    {
      loadedAt, value, now, callers, writer, log, answers := None, DEFAULT, 0, [], None, [], [];
    }

    method FastPath(id: nat) returns (hit: Option<File>)
      requires Inv(View()) && Enabled(View(), Check(id))
      modifies this
      ensures Inv(View()) && View() == Apply(old(View()), Check(id))
      ensures hit.Some? <==> old(loadedAt).Some? && now < old(loadedAt).value + 250
      ensures hit.Some? ==> hit.value == old(value) && answers == old(answers) + [Answer(now, hit.value, |log|)]
    {
      StepKeeps(View(), Check(id));
      if loadedAt.Some? && now - loadedAt.value < TTL {
        callers, answers := callers[id := Over], answers + [Answer(now, value, |log|)];
        return Some(value);
      }
      callers := callers[id := Waiting];
      return None;
    }

    method SlowPath(id: nat) returns (hit: Option<File>)
      requires Inv(View()) && Enabled(View(), Acquire(id))
      modifies this
      ensures Inv(View()) && View() == Apply(old(View()), Acquire(id))
      ensures hit.Some? <==> old(loadedAt).Some? && now < old(loadedAt).value + 250
      ensures hit.Some? ==> hit.value == old(value) && answers == old(answers) + [Answer(now, hit.value, |log|)]
    {
      StepKeeps(View(), Acquire(id));
      if loadedAt.Some? && now - loadedAt.value < TTL {
        callers, answers := callers[id := Over], answers + [Answer(now, value, |log|)];
        return Some(value);
      }
      callers, writer, log := callers[id := Reading], Some(id), log + [Read(now, Pending)];
      return None;
    }

    method StoreRead(id: nat, disk: Disk) returns (answer: File)
      requires Inv(View()) && Enabled(View(), Finish(id, disk))
      modifies this
      ensures Inv(View()) && View() == Apply(old(View()), Finish(id, disk))
      ensures answer == value && loadedAt == Some(now) && answers == old(answers) + [Answer(now, answer, |log|)]
      ensures disk.Missing? ==> answer == File(false, "")
      ensures disk.Parsed? ==> answer == disk.file
      ensures disk.Unreadable? ==> answer == if old(value).active then old(value) else File(true, "")
    {
      hide Inv;
      StepKeeps(View(), Finish(id, disk));
      match disk {
        case Parsed(file) => answer := file;
        case Missing => answer := DEFAULT;
        case Unreadable => answer := if value.active then value else DEFAULT.(active := true);
      }
      log := log[..|log| - 1] + [log[|log| - 1].(end := Done(now, disk))];
      loadedAt, value := Some(now), answer;
      writer, callers, answers := None, callers[id := Over], answers + [Answer(now, value, |log|)];
    }
  }
}
