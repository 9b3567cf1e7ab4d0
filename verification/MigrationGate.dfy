/** The support-floor gate of `backend/migrations/lib.rs`: a startup checks the database,
  * prunes its history and applies the migrations, each in a commit of its own. Startups may
  * run beside one another and be cut off between any two commits. */
module MigrationGate {
  import opened Common

  // ---------- marks ----------

  const FLOOR := "2026.09.29.1"

  /** Byte order, in which PostgreSQL compares the marks. */
  predicate TextLess(a: string, b: string) {
    b != [] && (a == [] || a[0] < b[0] || (a[0] == b[0] && TextLess(a[1..], b[1..])))
  }

  predicate AtFloor(mark: string) {
    !TextLess(mark, FLOOR)
  }

  function Padded(width: nat, n: nat): string {
    if width == 0 then "" else Padded(width - 1, n / 10) + [Digit(n % 10)]
  }

  /** A mark as releases write it: a zero-padded date and a count. */
  function Mark(year: nat, month: nat, day: nat, n: nat): string {
    Padded(4, year) + "." + Padded(2, month) + "." + Padded(2, day) + "." + Decimal(n)
  }

  /** Text of one length is compared before what follows it. */
  lemma {:induction false} LessByPrefix(p: string, q: string, x: string, y: string)
    requires |p| == |q|
    ensures TextLess(p + x, q + y) <==> TextLess(p, q) || (p == q && TextLess(x, y))
  {
    if p == [] {
      assert p + x == x && q + y == y;
    } else {
      assert (p + x)[1..] == p[1..] + x && (q + y)[1..] == q[1..] + y;
      LessByPrefix(p[1..], q[1..], x, y);
      assert p == [p[0]] + p[1..] && q == [q[0]] + q[1..];
    }
  }

  lemma {:induction false} PaddedLength(width: nat, n: nat)
    ensures |Padded(width, n)| == width
  {
    if width > 0 { PaddedLength(width - 1, n / 10); }
  }

  function Pow10(width: nat): nat {
    if width == 0 then 1 else 10 * Pow10(width - 1)
  }

  /** Zero-padded numbers compare as numbers. */
  lemma {:induction false} PaddedOrder(width: nat, a: nat, b: nat)
    requires a < Pow10(width) && b < Pow10(width)
    ensures TextLess(Padded(width, a), Padded(width, b)) <==> a < b
    ensures Padded(width, a) == Padded(width, b) <==> a == b
  {
    if width > 0 {
      PaddedOrder(width - 1, a / 10, b / 10);
      PaddedLength(width - 1, a / 10);
      PaddedLength(width - 1, b / 10);
      LessByPrefix(Padded(width - 1, a / 10), Padded(width - 1, b / 10), [Digit(a % 10)], [Digit(b % 10)]);
      var p, q := Padded(width, a), Padded(width, b);
      assert p[..width - 1] == Padded(width - 1, a / 10) && q[..width - 1] == Padded(width - 1, b / 10);
      assert p[width - 1] == Digit(a % 10) && q[width - 1] == Digit(b % 10);
    }
  }

  /** No count but 0 is written below "1". */
  lemma {:induction false} DecimalStarts(n: nat)
    ensures Decimal(n) != []
    ensures TextLess(Decimal(n), "1") <==> n == 0
    ensures n > 0 ==> Decimal(n)[0] >= '1'
  {
    if n >= 10 { DecimalStarts(n / 10); }
  }

  function Dated(year: nat, month: nat, day: nat, rest: string): string {
    Padded(4, year) + ("." + (Padded(2, month) + ("." + (Padded(2, day) + ("." + rest)))))
  }

  lemma DateOrder(y1: nat, m1: nat, d1: nat, x: string, y2: nat, m2: nat, d2: nat, y: string)
    requires y1 < 10000 && m1 < 100 && d1 < 100 && y2 < 10000 && m2 < 100 && d2 < 100
    ensures TextLess(Dated(y1, m1, d1, x), Dated(y2, m2, d2, y)) <==>
            || y1 < y2 || (y1 == y2 && m1 < m2) || (y1 == y2 && m1 == m2 && d1 < d2)
            || (y1 == y2 && m1 == m2 && d1 == d2 && TextLess(x, y))
  {
    NumberOrder(2, d1, d2, x, y);
    NumberOrder(2, m1, m2, Padded(2, d1) + ("." + x), Padded(2, d2) + ("." + y));
    NumberOrder(4, y1, y2, Padded(2, m1) + ("." + (Padded(2, d1) + ("." + x))), Padded(2, m2) + ("." + (Padded(2, d2) + ("." + y))));
  }

  lemma NumberOrder(width: nat, a: nat, b: nat, x: string, y: string)
    requires (width == 2 && a < 100 && b < 100) || (width == 4 && a < 10000 && b < 10000)
    ensures TextLess(Padded(width, a) + ("." + x), Padded(width, b) + ("." + y)) <==>
            a < b || (a == b && TextLess(x, y))
  {
    hide Padded, TextLess;
    assert Pow10(2) == 100 && Pow10(4) == 10000;
    PaddedLength(width, a);
    PaddedLength(width, b);
    PaddedOrder(width, a, b);
    LessByPrefix(Padded(width, a), Padded(width, b), "." + x, "." + y);
    LessByPrefix(".", ".", x, y);
    NotLess(".");
  }

  lemma {:induction false} NotLess(a: string)
    ensures !TextLess(a, a)
  {
    if a != [] { NotLess(a[1..]); }
  }

  lemma MarkIsDated(year: nat, month: nat, day: nat, n: nat)
    ensures Mark(year, month, day, n) == Dated(year, month, day, Decimal(n))
  {
    hide Padded, Decimal;
    Reassociate(Padded(4, year), Padded(2, month), Padded(2, day), Decimal(n));
  }

  lemma Reassociate(a: string, b: string, c: string, d: string)
    ensures a + "." + b + "." + c + "." + d == a + ("." + (b + ("." + (c + ("." + d)))))
  {
  }

  lemma PaddedStep(width: nat, n: nat)
    ensures Padded(width + 1, n) == Padded(width, n / 10) + [Digit(n % 10)]
  {
  }

  lemma TwoDigits(n: nat)
    requires n < 100
    ensures Padded(2, n) == [Digit(n / 10), Digit(n % 10)]
  {
    assert Padded(1, n / 10) == [Digit(n / 10 % 10)] by { assert Padded(0, n / 10 / 10) == ""; }
  }

  lemma TheFloorYear()
    ensures Padded(4, 2026) == "2026"
  {
    hide Padded;
    TwoDigits(20);
    PaddedStep(2, 202);
    PaddedStep(3, 2026);
  }

  lemma FloorIsAMark()
    ensures FLOOR == Mark(2026, 9, 29, 1)
  {
    hide Padded;
    TheFloorYear();
    TwoDigits(9);
    TwoDigits(29);
    assert Padded(2, 9) == "09" && Padded(2, 29) == "29";
    assert Decimal(1) == "1";
    Joined("2026", "09", "29", "1");
  }

  lemma Joined(a: string, b: string, c: string, d: string)
    requires a == "2026" && b == "09" && c == "29" && d == "1"
    ensures a + "." + b + "." + c + "." + d == FLOOR
  {
  }

  /** Against this floor, byte order is the order of (date, count), for every date and count. */
  lemma ByteOrderIsDateOrder(year: nat, month: nat, day: nat, n: nat)
    requires year < 10000 && month < 100 && day < 100
    ensures AtFloor(Mark(year, month, day, n)) <==>
            || year > 2026 || (year == 2026 && month > 9) || (year == 2026 && month == 9 && day > 29)
            || (year == 2026 && month == 9 && day == 29 && n >= 1)
  {
    hide TextLess, Dated, Mark, Padded;
    FloorIsAMark();
    DateOrder(year, month, day, Decimal(n), 2026, 9, 29, Decimal(1));
    DecimalStarts(n);
    assert Decimal(1) == "1";
    MarkIsDated(year, month, day, n);
    MarkIsDated(2026, 9, 29, 1);
  }

  /** Against another floor it would not be: the tenth mark of a day sorts before the ninth. */
  lemma TenSortsBeforeNine()
    ensures TextLess(Mark(2026, 9, 29, 10), Mark(2026, 9, 29, 9))
  {
    hide Dated, Mark, Padded;
    DateOrder(2026, 9, 29, Decimal(10), 2026, 9, 29, Decimal(9));
    assert Decimal(9) == "9" && Decimal(1) == "1";
    assert Decimal(10) == Decimal(1) + "0";
    assert TextLess("10", "9");
    MarkIsDated(2026, 9, 29, 10);
    MarkIsDated(2026, 9, 29, 9);
  }

  // ---------- the database ----------

  /** The migrations that still have files, in order. */
  function KeepMigrationVersions(): (names: seq<string>)
    ensures |names| == 6
    ensures forall i, j :: 0 <= i < j < |names| ==> names[i] != names[j]
  {
    ["001_initial_schema", "002_tapp_system", "003_phantasi_system",
     "004_agent_system", "005_federation", "006_oauth_identities"]
  }

  /** Fields of the media job's cursor, absent when it is not a JSON object or lacks them. */
  datatype MediaJobs = MediaJobs(revision: Option<string>, complete: Option<string>, retrying: Option<string>,
                                 missing: nat, other: nat)

  /** A table that does not exist is None. `applied` is what migrations have built. */
  datatype Db = Db(history: Option<set<string>>, marks: Option<set<string>>, media: Option<MediaJobs>, applied: set<string>)

  const EMPTY := Db(None, None, None, {})

  predicate HasHistory(db: Db) {
    db.history.Some? && db.history.value != {}
  }

  predicate HasFloorMark(db: Db) {
    db.marks.Some? && exists mark :: mark in db.marks.value && AtFloor(mark)
  }

  /** The first DO block, one transaction: it passes, perhaps marking a new database, or refuses. */
  function FloorGate(db: Db): Option<Db> {
    if !HasHistory(db) then
      Some(db.(marks := Some((if db.marks.Some? then db.marks.value else {}) + {FLOOR})))
    else if db.marks.None? then None
    else if !HasFloorMark(db) then None
    else Some(db)
  }

  predicate MediaGate(db: Db, accept: bool) {
    || db.media.None?
    || (db.media.value.revision == Some("4") && db.media.value.complete == Some("true"))
    || (db.media.value.revision == Some("4") && db.media.value.retrying == Some("true")
        && db.media.value.other == 0 && db.media.value.missing > 0 && accept)
  }

  /** The history kept: only versions that still have files. */
  function Discarded(db: Db): Db {
    if db.history.None? then db
    else db.(history := Some(set version | version in db.history.value && version in KeepMigrationVersions()))
  }

  // ---------- startups ----------

  /** What a startup does next. */
  datatype Phase =
    | AtFloorGate | AtMediaGate | AtDiscard | AtInstall
    | AtMigration(next: nat)    // builds the structure of migration `next`
    | AtRecord(next: nat)       // records it in the history
    | AtHeals                   // then marks the schema
    | Running | Refused | CutOff

  datatype State = State(db: Db, startups: seq<Phase>)

  datatype Step =
    | Boot
    | Next(p: nat, accept: bool)
    | WriteMark(p: nat, version: string)   // the schema mark a finished startup writes
    | Cut(p: nat)

  predicate Enabled(s: State, step: Step) {
    match step
    case Boot => true
    case Next(p, _) => p < |s.startups| && !s.startups[p].AtHeals? && !Ended(s.startups[p])
    case WriteMark(p, _) => p < |s.startups| && s.startups[p].AtHeals?
    case Cut(p) => p < |s.startups| && !Ended(s.startups[p])
  }

  predicate Ended(phase: Phase) {
    phase.Running? || phase.Refused? || phase.CutOff?
  }

  /** One commit of a startup, and where it goes from there. */
  function Commit(db: Db, phase: Phase, accept: bool): (Db, Phase) {
    match phase
    case AtFloorGate =>
      var gate := FloorGate(db);
      if gate.Some? then (gate.value, AtMediaGate) else (db, Refused)
    case AtMediaGate => (db, if MediaGate(db, accept) then AtDiscard else Refused)
    case AtDiscard => (Discarded(db), AtInstall)
    case AtInstall => (if db.history.None? then db.(history := Some({})) else db, AtMigration(0))
    case AtMigration(next) =>
      if next >= 6 then (db, AtHeals)
      else if db.history.Some? && KeepMigrationVersions()[next] in db.history.value then (db, AtMigration(next + 1))
      else (db.(applied := db.applied + {KeepMigrationVersions()[next]}), AtRecord(next))
    case AtRecord(next) =>
      if next >= 6 || db.history.None? then (db, CutOff)
      else (db.(history := Some(db.history.value + {KeepMigrationVersions()[next]})), AtMigration(next + 1))
    case _ => (db, phase)
  }

  function Apply(s: State, step: Step): State
    requires Enabled(s, step)
  {
    match step
    case Boot => s.(startups := s.startups + [AtFloorGate])
    case Next(p, accept) =>
      var (db, phase) := Commit(s.db, s.startups[p], accept);
      State(db, s.startups[p := phase])
    case WriteMark(p, version) =>
      var marks := if s.db.marks.Some? then s.db.marks.value else {};
      State(s.db.(marks := Some(marks + {version})), s.startups[p := Running])
    case Cut(p) => s.(startups := s.startups[p := CutOff])
  }

  ghost predicate IsRun(s: State, steps: seq<Step>)
    decreases |steps|
  {
    steps != [] ==> Enabled(s, steps[0]) && IsRun(Apply(s, steps[0]), steps[1..])
  }

  ghost function After(s: State, steps: seq<Step>): State
    requires IsRun(s, steps)
    decreases |steps|
  {
    if steps == [] then s else After(Apply(s, steps[0]), steps[1..])
  }

  // ---------- a new database is never refused ----------

  /** Whoever is past the gate, and whatever is in the history, came after the floor mark;
    * what is recorded has been built. */
  ghost predicate Inv(s: State) {
    && s.db.media.None? && RecordsBuilt(s.db)
    && (forall p :: 0 <= p < |s.startups| ==> BuiltBeforeRecord(s.db, s.startups[p]))
    && (HasHistory(s.db) ==> HasFloorMark(s.db))
    && (forall p :: 0 <= p < |s.startups| ==> !s.startups[p].Refused?)
    && (forall p :: 0 <= p < |s.startups| && PastGate(s.startups[p]) ==> HasFloorMark(s.db))
  }

  predicate RecordsBuilt(db: Db) {
    db.history.Some? ==> db.history.value <= db.applied
  }

  predicate BuiltBeforeRecord(db: Db, phase: Phase) {
    phase.AtRecord? ==> phase.next < 6 && KeepMigrationVersions()[phase.next] in db.applied
  }

  predicate PastGate(phase: Phase) {
    !phase.AtFloorGate? && !phase.Refused? && !phase.CutOff?
  }

  lemma FloorIsAtFloor()
    ensures AtFloor(FLOOR)
  {
    NotLess(FLOOR);
  }

  lemma MarksStay(db: Db, db': Db)
    requires HasFloorMark(db) && db'.marks.Some? && db.marks.value <= db'.marks.value
    ensures HasFloorMark(db')
  {
    var mark :| mark in db.marks.value && AtFloor(mark);
    assert mark in db'.marks.value;
  }

  lemma PassesTheGate(db: Db)
    requires HasHistory(db) ==> HasFloorMark(db)
    ensures FloorGate(db).Some? && HasFloorMark(FloorGate(db).value)
    ensures FloorGate(db).value == db.(marks := FloorGate(db).value.marks)
    ensures db.marks.Some? ==> db.marks.value <= FloorGate(db).value.marks.value
  {
    hide AtFloor;
    FloorIsAtFloor();
    if !HasHistory(db) {
      assert FLOOR in FloorGate(db).value.marks.value;
    }
  }

  lemma StepKeeps(s: State, step: Step)
    requires Inv(s) && Enabled(s, step)
    ensures Inv(Apply(s, step))
  {
    hide AtFloor;
    match step
    case Boot =>
    case Cut(p) =>
    case WriteMark(p, version) =>
      assert PastGate(s.startups[p]);
      MarksStay(s.db, Apply(s, step).db);
    case Next(p, accept) => CommitKeeps(s, p, accept);
  }

  lemma CommitKeeps(s: State, p: nat, accept: bool)
    requires Inv(s) && Enabled(s, Next(p, accept))
    ensures Inv(Apply(s, Next(p, accept)))
  {
    hide AtFloor, HasFloorMark;
    if s.startups[p].AtFloorGate? {
      PassesTheGate(s.db);
    } else {
      assert PastGate(s.startups[p]);
      var (db, phase) := Commit(s.db, s.startups[p], accept);
      assert db.marks == s.db.marks;
      SameMarks(s.db, db);
    }
  }

  lemma SameMarks(db: Db, db': Db)
    requires db.marks == db'.marks
    ensures HasFloorMark(db) == HasFloorMark(db')
  {
  }

  lemma {:induction false} RunKeeps(s: State, steps: seq<Step>)
    requires Inv(s) && IsRun(s, steps)
    ensures Inv(After(s, steps))
    decreases |steps|
  {
    hide Inv, Enabled, Apply;
    if steps != [] {
      StepKeeps(s, steps[0]);
      RunKeeps(Apply(s, steps[0]), steps[1..]);
    }
  }

  /** Starting from an empty database, whatever is cut off and whatever runs beside it, no
    * startup is ever refused, and the next one finds its gate open. */
  lemma NewDatabaseIsNeverRefused(steps: seq<Step>)
    requires IsRun(State(EMPTY, []), steps)
    ensures var s := After(State(EMPTY, []), steps);
            && (forall p :: 0 <= p < |s.startups| ==> !s.startups[p].Refused?)
            && FloorGate(s.db).Some? && forall accept :: MediaGate(FloorGate(s.db).value, accept)
  {
    hide AtFloor;
    assert Inv(State(EMPTY, []));
    RunKeeps(State(EMPTY, []), steps);
    PassesTheGate(After(State(EMPTY, []), steps).db);
  }

  // ---------- an undisturbed startup finishes ----------

  function Rank(phase: Phase): nat {
    match phase
    case AtFloorGate => 2 * 6 + 6
    case AtMediaGate => 2 * 6 + 5
    case AtDiscard => 2 * 6 + 4
    case AtInstall => 2 * 6 + 3
    case AtMigration(next) => if next < 6 then 2 * (6 - next) + 2 else 2
    case AtRecord(next) => if next < 6 then 2 * (6 - next) + 1 else 1
    case _ => 0
  }

  /** All the commits of one startup, up to its heals. */
  function Drive(db: Db, phase: Phase, accept: bool): (Db, Phase)
    decreases Rank(phase)
  {
    if phase.AtHeals? || Ended(phase) then (db, phase)
    else
      var (db', phase') := Commit(db, phase, accept);
      if Rank(phase') < Rank(phase) then Drive(db', phase', accept) else (db', phase')
  }

  lemma DrivesOne(db: Db, phase: Phase, accept: bool)
    requires !phase.AtHeals? && !Ended(phase)
    requires Rank(Commit(db, phase, accept).1) < Rank(phase)
    ensures Drive(db, phase, accept) == Drive(Commit(db, phase, accept).0, Commit(db, phase, accept).1, accept)
  {
  }

  lemma DrivesEnd(db: Db, accept: bool)
    ensures Drive(db, AtHeals, accept) == (db, AtHeals)
  {
  }

  function NamesFrom(next: nat): set<string> {
    set i | next <= i < 6 :: KeepMigrationVersions()[i]
  }

  /** Migrations `next` and later, each built and recorded unless it was. */
  lemma {:induction false} DrivesMigrations(db: Db, next: nat, accept: bool)
    requires db.history.Some? && RecordsBuilt(db) && next <= 6
    ensures var (end, phase) := Drive(db, AtMigration(next), accept);
            && phase == AtHeals && end.history.Some? && RecordsBuilt(end) && end.marks == db.marks
            && end.history.value == db.history.value + NamesFrom(next)
    decreases 6 - next
  {
    hide KeepMigrationVersions, Drive;
    DrivesEnd(db, accept);
    DrivesOne(db, AtMigration(next), accept);
    if next < 6 {
      var name := KeepMigrationVersions()[next];
      if name in db.history.value {
        DrivesMigrations(db, next + 1, accept);
      } else {
        var built := db.(applied := db.applied + {name});
        var recorded := built.(history := Some(db.history.value + {name}));
        DrivesOne(built, AtRecord(next), accept);
        DrivesMigrations(recorded, next + 1, accept);
      }
    }
  }

  /** The database with all six migrations built and recorded, and a mark at the floor. */
  ghost predicate IsComplete(db: Db) {
    var names := {"001_initial_schema", "002_tapp_system", "003_phantasi_system",
                  "004_agent_system", "005_federation", "006_oauth_identities"};
    HasFloorMark(db) && db.history == Some(names) && names <= db.applied
  }

  lemma AllNames()
    ensures NamesFrom(0) == {"001_initial_schema", "002_tapp_system", "003_phantasi_system",
                             "004_agent_system", "005_federation", "006_oauth_identities"}
  {
    var names := KeepMigrationVersions();
    assert names[0] in NamesFrom(0) && names[1] in NamesFrom(0) && names[2] in NamesFrom(0);
    assert names[3] in NamesFrom(0) && names[4] in NamesFrom(0) && names[5] in NamesFrom(0);
  }

  /** What is recorded, of the versions that have files, has been built. */
  predicate FilesBuilt(db: Db) {
    db.history.Some? ==> forall version :: version in db.history.value && version in KeepMigrationVersions() ==> version in db.applied
  }

  lemma DrivesFromGate(db: Db, accept: bool)
    requires FloorGate(db).Some? && HasFloorMark(FloorGate(db).value) && MediaGate(db, accept) && FilesBuilt(db)
    requires FloorGate(db).value == db.(marks := FloorGate(db).value.marks)
    ensures var (end, phase) := Drive(db, AtFloorGate, accept);
            phase == AtHeals && IsComplete(end)
  {
    hide AtFloor, Drive, KeepMigrationVersions, HasFloorMark, FloorGate;
    var gated := FloorGate(db).value;
    var kept := Discarded(gated);
    var installed := if kept.history.None? then kept.(history := Some({})) else kept;
    assert Commit(db, AtFloorGate, accept) == (gated, AtMediaGate);
    DrivesOne(db, AtFloorGate, accept);
    DrivesOne(gated, AtMediaGate, accept);
    DrivesOne(gated, AtDiscard, accept);
    DrivesOne(kept, AtInstall, accept);
    DrivesMigrations(installed, 0, accept);
    var end := Drive(installed, AtMigration(0), accept).0;
    SameMarks(gated, end);
    assert installed.history.value <= NamesFrom(0);
    assert end.history.value == NamesFrom(0);
    AllNames();
  }

  /** A startup alone at work runs the machine to where `Drive` says. */
  lemma {:induction false} DriveIsRun(s: State, p: nat, accept: bool) returns (steps: seq<Step>)
    requires p < |s.startups|
    ensures IsRun(s, steps) && forall i :: 0 <= i < |steps| ==> steps[i] == Next(p, accept)
    ensures var (db, phase) := Drive(s.db, s.startups[p], accept);
            After(s, steps) == State(db, s.startups[p := phase])
    decreases Rank(s.startups[p])
  {
    hide Commit, KeepMigrationVersions;
    var phase := s.startups[p];
    if phase.AtHeals? || Ended(phase) {
      steps := [];
      assert s.startups[p := phase] == s.startups;
    } else {
      var next := Apply(s, Next(p, accept));
      var rest := [];
      if Rank(next.startups[p]) < Rank(phase) {
        rest := DriveIsRun(next, p, accept);
      }
      steps := [Next(p, accept)] + rest;
      assert steps[1..] == rest;
    }
  }

  lemma {:induction false} RunsJoin(s: State, a: seq<Step>, b: seq<Step>)
    requires IsRun(s, a) && IsRun(After(s, a), b)
    ensures IsRun(s, a + b) && After(s, a + b) == After(After(s, a), b)
    decreases |a|
  {
    hide Apply, Enabled;
    if a == [] {
      assert a + b == b;
    } else {
      assert (a + b)[1..] == a[1..] + b;
      RunsJoin(Apply(s, a[0]), a[1..], b);
    }
  }

  /** The boot of one more startup and nothing but its own steps, up to its heals: they leave a
    * complete database. */
  ghost predicate Completes(s: State, later: seq<Step>, accept: bool) {
    && later != [] && later[0] == Boot
    && (forall i :: 1 <= i < |later| ==> later[i] == Next(|s.startups|, accept))
    && IsRun(s, later) && IsComplete(After(s, later).db)
    && After(s, later).startups == s.startups + [AtHeals]
  }

  /** Of any supported database whose media upgrade passes, the next startup, left alone, makes
    * a complete one; versions that have no file are gone from its history. */
  lemma StartupCompletes(s: State, accept: bool)
    requires (HasHistory(s.db) ==> HasFloorMark(s.db)) && FilesBuilt(s.db)
    requires !MediaUnfinished(s.db) || (OnlyMissing(s.db) && accept)
    ensures exists later :: Completes(s, later, accept)
  {
    hide AtFloor, Drive, KeepMigrationVersions, IsComplete;
    var booted := Apply(s, Boot);
    var p := |s.startups|;
    PassesTheGate(s.db);
    DrivesFromGate(s.db, accept);
    var driven := DriveIsRun(booted, p, accept);
    var later := [Boot] + driven;
    assert later[1..] == driven;
    assert IsRun(s, later) && After(s, later) == After(booted, driven);
    assert booted.startups[p := AtHeals] == s.startups + [AtHeals];
    assert Completes(s, later, accept);
  }

  /** Whatever a new database has become, it is such a one. */
  lemma RestartCompletes(steps: seq<Step>, accept: bool)
    requires IsRun(State(EMPTY, []), steps)
    ensures var start := State(EMPTY, []);
            var s := After(start, steps);
            exists later :: Completes(s, later, accept) && IsRun(start, steps + later)
                            && After(start, steps + later) == After(s, later)
  {
    hide AtFloor, KeepMigrationVersions, Inv, IsComplete, Completes;
    var start := State(EMPTY, []);
    EmptyInv();
    RunKeeps(start, steps);
    var s := After(start, steps);
    StartsSupported(s);
    StartupCompletes(s, accept);
    var later :| Completes(s, later, accept);
    assert IsRun(s, later) by {
      CompletesByRun(s, later, accept);
    }
    RunsJoin(start, steps, later);
  }

  lemma CompletesByRun(s: State, later: seq<Step>, accept: bool)
    requires Completes(s, later, accept)
    ensures IsRun(s, later)
  {
  }

  lemma EmptyInv()
    ensures Inv(State(EMPTY, []))
  {
  }

  lemma StartsSupported(s: State)
    requires Inv(s)
    ensures (HasHistory(s.db) ==> HasFloorMark(s.db)) && FilesBuilt(s.db) && !MediaUnfinished(s.db)
  {
  }

  // ---------- an unsupported database is left alone ----------

  /** A database with a history and no mark at the floor is exactly what the gate refuses, and
    * no number of attempts changes it. */
  lemma {:induction false} UnsupportedIsUntouched(s: State, steps: seq<Step>)
    requires HasHistory(s.db) && !HasFloorMark(s.db) && IsRun(s, steps)
    requires forall p :: 0 <= p < |s.startups| ==> !PastGate(s.startups[p])
    ensures var s' := After(s, steps);
            s'.db == s.db && forall p :: 0 <= p < |s'.startups| ==> !PastGate(s'.startups[p])
    decreases |steps|
  {
    hide HasFloorMark;
    if steps != [] {
      UnsupportedIsUntouched(Apply(s, steps[0]), steps[1..]);
    }
  }

  predicate PastMediaGate(phase: Phase) {
    PastGate(phase) && !phase.AtMediaGate?
  }

  predicate Accepts(step: Step) {
    step.Next? && step.accept
  }

  /** The job table is there, and does not say that revision 4 is complete. */
  predicate MediaUnfinished(db: Db) {
    db.media.Some? && (db.media.value.revision != Some("4") || db.media.value.complete != Some("true"))
  }

  /** All that is left of revision 4 are files missing from the volume, which it retries. */
  predicate OnlyMissing(db: Db) {
    && db.media.Some? && db.media.value.revision == Some("4") && db.media.value.retrying == Some("true")
    && db.media.value.missing > 0 && db.media.value.other == 0
  }

  /** A startup passes the media gate exactly if the upgrade is finished or was never needed,
    * or only missing files are left and the operator accepts that. */
  lemma PassesMediaExactly(s: State, p: nat, accept: bool)
    requires Enabled(s, Next(p, accept)) && s.startups[p] == AtMediaGate
    ensures var s' := Apply(s, Next(p, accept));
            && s'.db == s.db
            && s'.startups[p] == if !MediaUnfinished(s.db) || (OnlyMissing(s.db) && accept) then AtDiscard else Refused
  {
  }

  /** Nor does any number of attempts change a supported database whose media upgrade has not
    * finished, or get past its gate, unless only missing files are left and an operator
    * accepts that. */
  lemma {:induction false} UnfinishedMediaIsUntouched(s: State, steps: seq<Step>)
    requires HasHistory(s.db) && HasFloorMark(s.db) && MediaUnfinished(s.db) && IsRun(s, steps)
    requires forall p :: 0 <= p < |s.startups| ==> !PastMediaGate(s.startups[p])
    requires OnlyMissing(s.db) ==> forall i :: 0 <= i < |steps| ==> !Accepts(steps[i])
    ensures var s' := After(s, steps);
            s'.db == s.db && forall p :: 0 <= p < |s'.startups| ==> !PastMediaGate(s'.startups[p])
    decreases |steps|
  {
    hide HasFloorMark;
    if steps != [] {
      assert OnlyMissing(s.db) ==> !Accepts(steps[0]);
      UnfinishedMediaIsUntouched(Apply(s, steps[0]), steps[1..]);
    }
  }

  lemma RefusesExactly(db: Db)
    ensures FloorGate(db).None? <==> HasHistory(db) && !HasFloorMark(db)
  {
  }

  /** Once past the gate, only versions without a file leave the history, and the recorded
    * ones that stay are not built again. */
  lemma DiscardKeepsFiles(db: Db)
    ensures HasFloorMark(Discarded(db)) == HasFloorMark(db)
    ensures Discarded(db).history.Some? <==> db.history.Some?
    ensures db.history.Some? ==> forall version ::
              version in Discarded(db).history.value <==> version in db.history.value && version in KeepMigrationVersions()
    ensures Discarded(Discarded(db)) == Discarded(db)
  {
    hide KeepMigrationVersions;
    SameMarks(db, Discarded(db));
    if db.history.Some? {
      assert Discarded(Discarded(db)).history.value == Discarded(db).history.value;
    }
  }

  // ---------- the tables ----------

  /** The tables the gate and the discard change in place. */
  class Database {
    var history: Option<set<string>>
    var marks: Option<set<string>>
    var media: Option<MediaJobs>
    var applied: set<string>

    ghost function View(): Db
      reads this
    {
      Db(history, marks, media, applied)
    }

    method RefuseBelowSupportFloor() returns (ok: bool)
      modifies this`marks
      ensures ok <==> !(old(HasHistory(View())) && !old(HasFloorMark(View())))
      ensures ok ==> FloorGate(old(View())) == Some(View()) && HasFloorMark(View())
      ensures !ok ==> View() == old(View())
    {
      hide AtFloor;
      var hasHistory := false;
      if history.Some? {
        hasHistory := history.value != {};
      }
      if !hasHistory {
        if marks.None? { marks := Some({}); }
        marks := Some(marks.value + {FLOOR});
        FloorIsAtFloor();
        assert FLOOR in marks.value;
        return true;
      }
      if marks.None? { return false; }
      if !(exists mark :: mark in marks.value && AtFloor(mark)) { return false; }
      return true;
    }

    method DiscardUnknownMigrationHistory()
      modifies this`history
      ensures View() == Discarded(old(View()))
    {
      if history.None? { return; }
      history := Some(set version | version in history.value && version in KeepMigrationVersions());
    }
  }
}
