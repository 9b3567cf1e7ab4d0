/** The storage quota of `backend/migrations/002_tapp_system.rs`: a row trigger sums what an
  * owner (a user's Tapp) stores, under an advisory lock held to the end of the transaction.
  *
  * Transactions interleave at READ COMMITTED: a query sees what is committed when it runs,
  * overlaid with the transaction's own writes. A statement that fires the trigger locks its
  * row, takes the advisory lock, sums, and writes, and others may run between any two of
  * these. Texts are byte strings. */
module StorageQuota {
  import opened Common

  const QUOTA: nat := 8388608

  datatype Owner = Owner(user: int, tapp: string)

  datatype Row = Row(owner: Owner, key: string, value: string, encrypted: Option<string>)

  function Bytes(row: Row): nat {
    |row.key| + |row.value| + if row.encrypted.Some? then |row.encrypted.value| else 0
  }

  /** Rows by id; None for one that is not there. */
  type Table = seq<Option<Row>>

  // ---------- the sums ----------

  /** The rows a sum leaves out. */
  datatype Except = Nothing | Id(id: nat) | Key(key: string)

  function Weight(row: Option<Row>, id: nat, owner: Owner, except: Except): nat {
    if row.None? || row.value.owner != owner then 0
    else
      match except
      case Nothing => Bytes(row.value)
      case Id(skipped) => if id == skipped then 0 else Bytes(row.value)
      case Key(skipped) => if row.value.key == skipped then 0 else Bytes(row.value)
  }

  function Sum(rows: Table, owner: Owner, except: Except): nat {
    if rows == [] then 0
    else Sum(rows[..|rows| - 1], owner, except) + Weight(rows[|rows| - 1], |rows| - 1, owner, except)
  }

  lemma {:induction false} SumIsMonotone(a: Table, b: Table, owner: Owner, exceptA: Except, exceptB: Except)
    requires |a| == |b|
    requires forall i :: 0 <= i < |a| ==> Weight(a[i], i, owner, exceptA) <= Weight(b[i], i, owner, exceptB)
    ensures Sum(a, owner, exceptA) <= Sum(b, owner, exceptB)
  {
    if a != [] {
      SumIsMonotone(a[..|a| - 1], b[..|b| - 1], owner, exceptA, exceptB);
    }
  }

  lemma SumAppends(rows: Table, row: Option<Row>, owner: Owner, except: Except)
    ensures Sum(rows + [row], owner, except) == Sum(rows, owner, except) + Weight(row, |rows|, owner, except)
  {
    assert (rows + [row])[..|rows|] == rows;
  }

  /** Replacing one row changes the sum by that row. */
  lemma {:induction false} SumReplaces(rows: Table, id: nat, row: Option<Row>, owner: Owner, except: Except)
    requires id < |rows|
    ensures Sum(rows[id := row], owner, except) + Weight(rows[id], id, owner, except)
         == Sum(rows, owner, except) + Weight(row, id, owner, except)
  {
    var init := rows[..|rows| - 1];
    if id == |rows| - 1 {
      assert rows[id := row][..|rows| - 1] == init;
    } else {
      assert rows[id := row][..|rows| - 1] == init[id := row];
      SumReplaces(init, id, row, owner, except);
    }
  }

  /** Leaving a row out is summing without it. */
  lemma {:induction false} SumLeavesOut(rows: Table, id: nat, owner: Owner)
    requires id < |rows|
    ensures Sum(rows, owner, Nothing) == Sum(rows, owner, Id(id)) + Weight(rows[id], id, owner, Nothing)
  {
    var init := rows[..|rows| - 1];
    if id == |rows| - 1 {
      SumBelow(init, id, owner);
    } else {
      SumLeavesOut(init, id, owner);
    }
  }

  lemma SumBelow(rows: Table, id: nat, owner: Owner)
    requires |rows| <= id
    ensures Sum(rows, owner, Nothing) == Sum(rows, owner, Id(id))
  {
    SumIsMonotone(rows, rows, owner, Nothing, Id(id));
    SumIsMonotone(rows, rows, owner, Id(id), Nothing);
  }

  predicate Stores(row: Option<Row>, owner: Owner, key: string) {
    row.Some? && row.value.owner == owner && row.value.key == key
  }

  lemma SumWithoutKey(rows: Table, owner: Owner, key: string)
    requires forall i :: 0 <= i < |rows| ==> !Stores(rows[i], owner, key)
    ensures Sum(rows, owner, Key(key)) == Sum(rows, owner, Nothing)
  {
    forall i | 0 <= i < |rows| ensures Weight(rows[i], i, owner, Nothing) == Weight(rows[i], i, owner, Key(key)) {
      assert !Stores(rows[i], owner, key);
    }
    SumIsMonotone(rows, rows, owner, Nothing, Key(key));
    SumIsMonotone(rows, rows, owner, Key(key), Nothing);
  }

  // ---------- what an owner stores ----------

  /** All the bytes of an owner's rows, one after another: keys, values and ciphertexts. */
  function StoredText(rows: Table, owner: Owner): string {
    if rows == [] then ""
    else
      var row := rows[|rows| - 1];
      StoredText(rows[..|rows| - 1], owner)
      + (if row.None? || row.value.owner != owner then ""
         else row.value.key + row.value.value + (if row.value.encrypted.Some? then row.value.encrypted.value else ""))
  }

  /** The sum is the length of that text. */
  lemma {:induction false} SumIsLength(rows: Table, owner: Owner)
    ensures Sum(rows, owner, Nothing) == |StoredText(rows, owner)|
  {
    if rows != [] { SumIsLength(rows[..|rows| - 1], owner); }
  }

  // ---------- the trigger ----------

  datatype Write = Insert(row: Row) | Update(id: nat, row: Row)

  /** What the trigger's sum leaves out: the row being replaced, by id or by key. */
  function Excepted(w: Write): Except {
    match w
    case Insert(row) => Key(row.key)
    case Update(id, _) => Id(id)
  }

  function Projected(rows: Table, w: Write): nat {
    Sum(rows, w.row.owner, Excepted(w)) + Bytes(w.row)
  }

  /** The table a write leads to, if the unique index on (user, tapp, key) lets it through. */
  function Written(rows: Table, w: Write): Table
    requires w.Update? ==> w.id < |rows|
  {
    match w
    case Insert(row) => rows + [Some(row)]
    case Update(id, row) => rows[id := Some(row)]
  }

  predicate Clashes(rows: Table, w: Write) {
    exists i :: 0 <= i < |rows| && (w.Update? ==> i != w.id) && Stores(rows[i], w.row.owner, w.row.key)
  }

  /** What the trigger projects is what the owner will store. */
  lemma ProjectsTheOutcome(rows: Table, w: Write)
    requires (w.Update? ==> w.id < |rows|) && !Clashes(rows, w)
    ensures Sum(Written(rows, w), w.row.owner, Nothing) == Projected(rows, w)
  {
    match w
    case Insert(row) =>
      SumWithoutKey(rows, row.owner, row.key);
      SumAppends(rows, Some(row), row.owner, Nothing);
    case Update(id, row) =>
      SumReplaces(rows, id, Some(row), row.owner, Nothing);
      SumLeavesOut(rows, id, row.owner);
  }

  /** The one row that has the key of an insert; ON CONFLICT would replace it. */
  predicate OnlyClash(rows: Table, w: Write, i: nat) {
    && w.Insert? && i < |rows| && Stores(rows[i], w.row.owner, w.row.key)
    && forall j :: 0 <= j < |rows| && j != i ==> !Stores(rows[j], w.row.owner, w.row.key)
  }

  /** For an insert that meets a row of its key, it projects the outcome of replacing that row. */
  lemma ProjectsTheReplacement(rows: Table, w: Write, i: nat)
    requires OnlyClash(rows, w, i)
    ensures Sum(rows[i := Some(w.row)], w.row.owner, Nothing) == Projected(rows, w)
  {
    var owner, key, without := w.row.owner, w.row.key, rows[i := None];
    SumReplaces(rows, i, None, owner, Key(key));
    SumWithoutKey(without, owner, key);
    SumReplaces(without, i, Some(w.row), owner, Nothing);
    assert without[i := Some(w.row)] == rows[i := Some(w.row)];
  }

  /** Every other owner stores no more than before. */
  lemma OthersStoreNoMore(rows: Table, w: Write, owner: Owner)
    requires (w.Update? ==> w.id < |rows|) && owner != w.row.owner
    ensures Sum(Written(rows, w), owner, Nothing) <= Sum(rows, owner, Nothing)
  {
    match w
    case Insert(row) => SumAppends(rows, Some(row), owner, Nothing);
    case Update(id, row) => SumReplaces(rows, id, Some(row), owner, Nothing);
  }

  /** `enforce_tapp_storage_quota`, once it holds the lock: it lets a write through exactly
    * when in the table the write leads to, be it by replacing the row of its key, the owner's
    * text is within the quota. */
  method EnforceTappStorageQuota(rows: Table, w: Write) returns (ok: bool)
    requires w.Update? ==> w.id < |rows|
    ensures ok <==> Projected(rows, w) <= QUOTA
    ensures !Clashes(rows, w) ==> (ok <==> |StoredText(Written(rows, w), w.row.owner)| <= 8388608)
    ensures forall i: nat :: i < |rows| && OnlyClash(rows, w, i) ==> (ok <==> |StoredText(rows[i := Some(w.row)], w.row.owner)| <= 8388608)
  {
    var currentBytes: nat;
    if w.Update? {
      currentBytes := Sum(rows, w.row.owner, Id(w.id));
    } else {
      currentBytes := Sum(rows, w.row.owner, Key(w.row.key));
    }
    var projectedBytes := currentBytes + |w.row.key| + |w.row.value|
      + if w.row.encrypted.Some? then |w.row.encrypted.value| else 0;
    ok := projectedBytes <= QUOTA;
    VerdictIsAboutText(rows, w);
  }

  lemma VerdictIsAboutText(rows: Table, w: Write)
    requires w.Update? ==> w.id < |rows|
    ensures !Clashes(rows, w) ==> |StoredText(Written(rows, w), w.row.owner)| == Projected(rows, w)
    ensures forall i: nat :: i < |rows| && OnlyClash(rows, w, i) ==> |StoredText(rows[i := Some(w.row)], w.row.owner)| == Projected(rows, w)
  {
    hide Sum, StoredText, Projected, Clashes, OnlyClash;
    if !Clashes(rows, w) {
      ProjectsTheOutcome(rows, w);
      SumIsLength(Written(rows, w), w.row.owner);
    }
    forall i: nat | i < |rows| && OnlyClash(rows, w, i) ensures |StoredText(rows[i := Some(w.row)], w.row.owner)| == Projected(rows, w) {
      ProjectsTheReplacement(rows, w, i);
      SumIsLength(rows[i := Some(w.row)], w.row.owner);
    }
  }

  // ---------- transactions ----------

  /** How far a statement that fires the trigger has got. */
  datatype Pending = Idle | Locking(write: Write) | Checking(write: Write) | Writing(write: Write)

  datatype Tx = Tx(open: bool, overlay: map<nat, Option<Row>>, rowLocks: set<nat>, locks: set<int>, pending: Pending)

  const FRESH := Tx(true, map[], {}, {}, Idle)
  const OVER := Tx(false, map[], {}, {}, Idle)

  /** `lockKey` is the hash of the lock's name; two owners may share one. */
  datatype State = State(committed: Table, txs: seq<Tx>, lockKey: Owner -> int)

  function Seen(committed: Table, overlay: map<nat, Option<Row>>): (rows: Table)
    ensures |rows| == |committed|
  {
    seq(|committed|, i requires 0 <= i < |committed| => if i in overlay then overlay[i] else committed[i])
  }

  function View(s: State, t: nat): Table
    requires t < |s.txs|
  {
    Seen(s.committed, s.txs[t].overlay)
  }

  datatype Step =
    | Begin
    | StartInsert(t: nat, row: Row)
    | StartUpdate(t: nat, id: nat, row: Row)   // locks the row
    | Lock(t: nat)                             // the trigger's advisory lock
    | Check(t: nat)                            // the trigger's sum, and its verdict
    | WriteRow(t: nat)
    | Conflict(t: nat, id: nat, row: Row)      // ON CONFLICT DO UPDATE: the trigger fires again
    | SkipConflict(t: nat)                     // ON CONFLICT DO NOTHING
    | Delete(t: nat, id: nat)
    | Commit(t: nat)
    | Abort(t: nat)

  predicate RowIsFree(s: State, t: nat, id: nat) {
    forall u :: 0 <= u < |s.txs| && u != t ==> id !in s.txs[u].rowLocks
  }

  predicate LockIsFree(s: State, t: nat, lock: int) {
    forall u :: 0 <= u < |s.txs| && u != t ==> lock !in s.txs[u].locks
  }

  predicate Enabled(s: State, step: Step) {
    match step
    case Begin => true
    case StartInsert(t, _) => t < |s.txs| && s.txs[t].open && s.txs[t].pending.Idle?
    case StartUpdate(t, id, _) =>
      && t < |s.txs| && s.txs[t].open && s.txs[t].pending.Idle?
      && id < |s.committed| && View(s, t)[id].Some? && RowIsFree(s, t, id)
    case Lock(t) =>
      t < |s.txs| && s.txs[t].pending.Locking? && LockIsFree(s, t, s.lockKey(s.txs[t].pending.write.row.owner))
    case Check(t) => t < |s.txs| && s.txs[t].pending.Checking?
    case WriteRow(t) => t < |s.txs| && s.txs[t].pending.Writing? && !Clashes(View(s, t), s.txs[t].pending.write)
    case Conflict(t, id, _) =>
      && t < |s.txs| && s.txs[t].pending.Writing? && s.txs[t].pending.write.Insert?
      && id < |s.committed| && RowIsFree(s, t, id)
      && Stores(View(s, t)[id], s.txs[t].pending.write.row.owner, s.txs[t].pending.write.row.key)
    case SkipConflict(t) =>
      && t < |s.txs| && s.txs[t].pending.Writing? && s.txs[t].pending.write.Insert?
      && Clashes(View(s, t), s.txs[t].pending.write)
    case Delete(t, id) =>
      && t < |s.txs| && s.txs[t].open && s.txs[t].pending.Idle?
      && id < |s.committed| && View(s, t)[id].Some? && RowIsFree(s, t, id)
    case Commit(t) => t < |s.txs| && s.txs[t].open && s.txs[t].pending.Idle?
    case Abort(t) => t < |s.txs| && s.txs[t].open
  }

  function With(s: State, t: nat, tx: Tx): State
    requires t < |s.txs|
  {
    s.(txs := s.txs[t := tx])
  }

  function Apply(s: State, step: Step): State
    requires Enabled(s, step)
  {
    match step
    case Begin => s.(txs := s.txs + [FRESH])
    case StartInsert(t, row) => With(s, t, s.txs[t].(pending := Locking(Insert(row))))
    case StartUpdate(t, id, row) => Rewrite(s, t, id, row)
    case Lock(t) =>
      var w := s.txs[t].pending.write;
      With(s, t, s.txs[t].(locks := s.txs[t].locks + {s.lockKey(w.row.owner)}, pending := Checking(w)))
    case Check(t) =>
      var w := s.txs[t].pending.write;
      if Projected(View(s, t), w) > QUOTA then With(s, t, OVER) else With(s, t, s.txs[t].(pending := Writing(w)))
    case WriteRow(t) => Store(s, t, s.txs[t].pending.write)
    case Conflict(t, id, row) => Rewrite(s, t, id, row)
    case SkipConflict(t) => With(s, t, s.txs[t].(pending := Idle))
    case Delete(t, id) =>
      With(s, t, s.txs[t].(overlay := s.txs[t].overlay[id := None], rowLocks := s.txs[t].rowLocks + {id}))
    case Commit(t) => With(s.(committed := View(s, t)), t, OVER)
    case Abort(t) => With(s, t, OVER)
  }

  function Rewrite(s: State, t: nat, id: nat, row: Row): State
    requires t < |s.txs|
  {
    With(s, t, s.txs[t].(rowLocks := s.txs[t].rowLocks + {id}, pending := Locking(Update(id, row))))
  }

  function Store(s: State, t: nat, w: Write): State
    requires t < |s.txs|
  {
    var tx := s.txs[t];
    match w
    case Insert(row) =>
      var id := |s.committed|;
      With(s.(committed := s.committed + [None]), t,
           tx.(overlay := tx.overlay[id := Some(row)], rowLocks := tx.rowLocks + {id}, pending := Idle))
    case Update(id, row) => With(s, t, tx.(overlay := tx.overlay[id := Some(row)], pending := Idle))
  }

  // ---------- the invariant ----------

  ghost predicate InQuota(rows: Table) {
    forall owner :: Sum(rows, owner, Nothing) <= QUOTA
  }

  /** A row a transaction wrote belongs to an owner it holds the lock of. */
  ghost predicate WritesLocked(s: State, tx: Tx) {
    forall id :: id in tx.overlay && tx.overlay[id].Some? ==> s.lockKey(tx.overlay[id].value.owner) in tx.locks
  }

  predicate RowsLocked(s: State, tx: Tx) {
    && (forall id :: id in tx.overlay ==> id in tx.rowLocks)
    && (forall id :: id in tx.rowLocks ==> id < |s.committed|)
  }

  /** A write past its check is within the quota until it is done. */
  predicate PendingInv(s: State, tx: Tx) {
    && (tx.pending.Checking? || tx.pending.Writing? ==> s.lockKey(tx.pending.write.row.owner) in tx.locks)
    && (!tx.pending.Idle? && tx.pending.write.Update? ==> tx.pending.write.id in tx.rowLocks)
    && (tx.pending.Writing? ==> Projected(Seen(s.committed, tx.overlay), tx.pending.write) <= QUOTA)
  }

  ghost predicate TxInv(s: State, tx: Tx) {
    WritesLocked(s, tx) && RowsLocked(s, tx) && PendingInv(s, tx) && InQuota(Seen(s.committed, tx.overlay))
  }

  predicate Exclusive(s: State) {
    forall t, u :: 0 <= t < u < |s.txs| ==>
      s.txs[t].rowLocks !! s.txs[u].rowLocks && s.txs[t].locks !! s.txs[u].locks
  }

  ghost predicate Inv(s: State) {
    && InQuota(s.committed) && Exclusive(s)
    && forall t :: 0 <= t < |s.txs| ==> TxInv(s, s.txs[t])
  }

  // ---------- every step keeps it ----------

  lemma WithKeeps(s: State, t: nat, tx: Tx)
    requires Inv(s) && t < |s.txs| && TxInv(s, tx) && Exclusive(With(s, t, tx))
    ensures Inv(With(s, t, tx))
  {
    hide InQuota, WritesLocked, RowsLocked, PendingInv, Exclusive;
    var s' := With(s, t, tx);
    forall u | 0 <= u < |s'.txs| ensures TxInv(s', s'.txs[u]) {
      TxInvFrame(s, s', s'.txs[u]);
    }
  }

  lemma TxInvFrame(s: State, s': State, tx: Tx)
    requires s'.committed == s.committed && s'.lockKey == s.lockKey
    ensures TxInv(s, tx) == TxInv(s', tx)
  {
  }

  lemma UntouchedSees(rows: Table)
    ensures Seen(rows, map[]) == rows
  {
  }

  /** What a transaction newly claims was free. */
  predicate ClaimsFree(s: State, t: nat, tx: Tx)
    requires t < |s.txs|
  {
    && (forall id :: id in tx.rowLocks ==> id in s.txs[t].rowLocks || RowIsFree(s, t, id))
    && (forall lock :: lock in tx.locks ==> lock in s.txs[t].locks || LockIsFree(s, t, lock))
  }

  lemma StaysExclusive(s: State, t: nat, tx: Tx)
    requires Exclusive(s) && t < |s.txs| && ClaimsFree(s, t, tx)
    ensures Exclusive(With(s, t, tx))
  {
    var s' := With(s, t, tx);
    forall a, b | 0 <= a < b < |s'.txs|
      ensures s'.txs[a].rowLocks !! s'.txs[b].rowLocks && s'.txs[a].locks !! s'.txs[b].locks
    {
      var u := if a == t then b else a;
      if u != t && (a == t || b == t) {
        DisjointFrom(s, t, tx, u);
      } else {
        assert s.txs[a].rowLocks !! s.txs[b].rowLocks && s.txs[a].locks !! s.txs[b].locks;
      }
    }
  }

  lemma DisjointFrom(s: State, t: nat, tx: Tx, u: nat)
    requires Exclusive(s) && t < |s.txs| && u < |s.txs| && u != t && ClaimsFree(s, t, tx)
    ensures tx.rowLocks !! s.txs[u].rowLocks && tx.locks !! s.txs[u].locks
  {
    assert t < u ==> s.txs[t].rowLocks !! s.txs[u].rowLocks && s.txs[t].locks !! s.txs[u].locks;
    assert u < t ==> s.txs[u].rowLocks !! s.txs[t].rowLocks && s.txs[u].locks !! s.txs[t].locks;
    forall id | id in tx.rowLocks ensures id !in s.txs[u].rowLocks {
      if id !in s.txs[t].rowLocks { assert RowIsFree(s, t, id); }
    }
    forall lock | lock in tx.locks ensures lock !in s.txs[u].locks {
      if lock !in s.txs[t].locks { assert LockIsFree(s, t, lock); }
    }
  }

  /** A step that changes one transaction and nothing committed. */
  lemma LocalKeeps(s: State, t: nat, tx: Tx)
    requires Inv(s) && t < |s.txs| && TxInv(s, tx) && ClaimsFree(s, t, tx)
    ensures Inv(With(s, t, tx))
  {
    hide TxInv, ClaimsFree, InQuota, Exclusive;
    StaysExclusive(s, t, tx);
    WithKeeps(s, t, tx);
  }

  lemma OverKeeps(s: State, t: nat)
    requires Inv(s) && t < |s.txs|
    ensures Inv(With(s, t, OVER))
  {
    UntouchedSees(s.committed);
    LocalKeeps(s, t, OVER);
  }

  lemma BeginKeeps(s: State)
    requires Inv(s)
    ensures Inv(Apply(s, Begin))
  {
    hide InQuota, WritesLocked;
    var s' := Apply(s, Begin);
    UntouchedSees(s.committed);
    forall u | 0 <= u < |s'.txs| ensures TxInv(s', s'.txs[u]) {
      if u < |s.txs| { TxInvFrame(s, s', s.txs[u]); } else { FreshInv(s'); }
    }
  }

  lemma FreshInv(s: State)
    requires InQuota(s.committed)
    ensures TxInv(s, FRESH)
  {
    UntouchedSees(s.committed);
  }

  lemma RewriteKeeps(s: State, t: nat, id: nat, row: Row)
    requires Inv(s) && t < |s.txs| && id < |s.committed| && RowIsFree(s, t, id)
    ensures Inv(Rewrite(s, t, id, row))
  {
    assert TxInv(s, s.txs[t]);
    LocalKeeps(s, t, s.txs[t].(rowLocks := s.txs[t].rowLocks + {id}, pending := Locking(Update(id, row))));
  }

  lemma LockKeeps(s: State, t: nat)
    requires Inv(s) && Enabled(s, Lock(t))
    ensures Inv(Apply(s, Lock(t)))
  {
    assert TxInv(s, s.txs[t]);
    var w := s.txs[t].pending.write;
    LocalKeeps(s, t, s.txs[t].(locks := s.txs[t].locks + {s.lockKey(w.row.owner)}, pending := Checking(w)));
  }

  lemma CheckKeeps(s: State, t: nat)
    requires Inv(s) && Enabled(s, Check(t))
    ensures Inv(Apply(s, Check(t)))
  {
    assert TxInv(s, s.txs[t]);
    var w := s.txs[t].pending.write;
    if Projected(View(s, t), w) > QUOTA {
      OverKeeps(s, t);
    } else {
      LocalKeeps(s, t, s.txs[t].(pending := Writing(w)));
    }
  }

  lemma DeleteKeeps(s: State, t: nat, id: nat)
    requires Inv(s) && Enabled(s, Delete(t, id))
    ensures Inv(Apply(s, Delete(t, id)))
  {
    assert TxInv(s, s.txs[t]);
    var tx := s.txs[t].(overlay := s.txs[t].overlay[id := None], rowLocks := s.txs[t].rowLocks + {id});
    assert Seen(s.committed, tx.overlay) == View(s, t)[id := None];
    forall owner ensures Sum(Seen(s.committed, tx.overlay), owner, Nothing) <= QUOTA {
      SumReplaces(View(s, t), id, None, owner, Nothing);
    }
    LocalKeeps(s, t, tx);
  }

  /** A write that passed its check leaves its transaction's view within the quota. */
  lemma WriteStaysInQuota(rows: Table, w: Write)
    requires InQuota(rows) && Projected(rows, w) <= QUOTA && !Clashes(rows, w)
    requires w.Update? ==> w.id < |rows|
    ensures InQuota(Written(rows, w))
  {
    hide Sum, Written, Projected, Clashes;
    forall owner ensures Sum(Written(rows, w), owner, Nothing) <= QUOTA {
      if owner == w.row.owner { ProjectsTheOutcome(rows, w); } else { OthersStoreNoMore(rows, w, owner); }
    }
  }

  lemma UpdateKeeps(s: State, t: nat)
    requires Inv(s) && Enabled(s, WriteRow(t)) && s.txs[t].pending.write.Update?
    ensures Inv(Apply(s, WriteRow(t)))
  {
    hide InQuota, Clashes, Projected;
    assert TxInv(s, s.txs[t]);
    var w := s.txs[t].pending.write;
    var tx := s.txs[t].(overlay := s.txs[t].overlay[w.id := Some(w.row)], pending := Idle);
    WriteStaysInQuota(View(s, t), w);
    assert Seen(s.committed, tx.overlay) == Written(View(s, t), w);
    LocalKeeps(s, t, tx);
  }

  /** Handing out a row id changes no sum. */
  lemma GrowKeeps(s: State, tx: Tx)
    requires TxInv(s, tx)
    ensures TxInv(s.(committed := s.committed + [None]), tx)
  {
    var rows := Seen(s.committed, tx.overlay);
    assert Seen(s.committed + [None], tx.overlay) == rows + [None];
    forall owner, except ensures Sum(rows + [None], owner, except) == Sum(rows, owner, except) {
      SumAppends(rows, None, owner, except);
    }
  }

  lemma GrowInQuota(rows: Table)
    requires InQuota(rows)
    ensures InQuota(rows + [None])
  {
    forall owner ensures Sum(rows + [None], owner, Nothing) <= QUOTA {
      SumAppends(rows, None, owner, Nothing);
    }
  }

  lemma GrownInv(s: State)
    requires Inv(s)
    ensures Inv(s.(committed := s.committed + [None]))
  {
    hide TxInv, InQuota;
    GrowInQuota(s.committed);
    var s' := s.(committed := s.committed + [None]);
    forall u | 0 <= u < |s'.txs| ensures TxInv(s', s'.txs[u]) {
      GrowKeeps(s, s.txs[u]);
    }
  }

  lemma InsertKeeps(s: State, t: nat)
    requires Inv(s) && Enabled(s, WriteRow(t)) && s.txs[t].pending.write.Insert?
    ensures Inv(Apply(s, WriteRow(t)))
  {
    hide InQuota, Clashes, Projected;
    assert TxInv(s, s.txs[t]);
    var w, id := s.txs[t].pending.write, |s.committed|;
    var grown := s.(committed := s.committed + [None]);
    GrownInv(s);
    var tx := s.txs[t].(overlay := s.txs[t].overlay[id := Some(w.row)], rowLocks := s.txs[t].rowLocks + {id}, pending := Idle);
    WriteStaysInQuota(View(s, t), w);
    assert Seen(grown.committed, tx.overlay) == Written(View(s, t), w);
    NewIdIsFree(s, t);
    LocalKeeps(grown, t, tx);
  }

  lemma NewIdIsFree(s: State, t: nat)
    requires Inv(s)
    ensures RowIsFree(s.(committed := s.committed + [None]), t, |s.committed|)
  {
    hide InQuota, WritesLocked, PendingInv;
    forall u | 0 <= u < |s.txs| && u != t ensures |s.committed| !in s.txs[u].rowLocks {
      assert TxInv(s, s.txs[u]);
    }
  }

  // ---------- a commit, as another transaction sees it ----------

  lemma SeenAt(rows: Table, overlay: map<nat, Option<Row>>, i: nat)
    requires i < |rows|
    ensures Seen(rows, overlay)[i] == if i in overlay then overlay[i] else rows[i]
  {
  }

  /** Of an owner whose lock it holds, a transaction sees no more after another's commit. */
  lemma CommitShrinksLocked(s: State, mine: Tx, other: Tx, owner: Owner, except: Except)
    requires TxInv(s, mine) && TxInv(s, other)
    requires mine.locks !! other.locks && s.lockKey(owner) in mine.locks
    ensures Sum(Seen(Seen(s.committed, other.overlay), mine.overlay), owner, except)
         <= Sum(Seen(s.committed, mine.overlay), owner, except)
  {
    hide InQuota, Sum, Seen;
    var committed' := Seen(s.committed, other.overlay);
    var before, after := Seen(s.committed, mine.overlay), Seen(committed', mine.overlay);
    forall i | 0 <= i < |before| ensures Weight(after[i], i, owner, except) <= Weight(before[i], i, owner, except) {
      SeenAt(s.committed, other.overlay, i);
      SeenAt(s.committed, mine.overlay, i);
      SeenAt(committed', mine.overlay, i);
    }
    SumIsMonotone(after, before, owner, except, except);
  }

  /** Of any other owner it sees no more than what is now committed. */
  lemma CommitBoundsUnlocked(s: State, mine: Tx, other: Tx, owner: Owner)
    requires TxInv(s, mine) && TxInv(s, other) && s.lockKey(owner) !in mine.locks
    ensures Sum(Seen(Seen(s.committed, other.overlay), mine.overlay), owner, Nothing) <= QUOTA
  {
    hide Sum, Seen;
    var committed' := Seen(s.committed, other.overlay);
    var after := Seen(committed', mine.overlay);
    forall i | 0 <= i < |after| ensures Weight(after[i], i, owner, Nothing) <= Weight(committed'[i], i, owner, Nothing) {
      SeenAt(committed', mine.overlay, i);
    }
    SumIsMonotone(after, committed', owner, Nothing, Nothing);
  }

  lemma CommitKeepsOther(s: State, mine: Tx, other: Tx)
    requires TxInv(s, mine) && TxInv(s, other) && mine.locks !! other.locks
    ensures TxInv(s.(committed := Seen(s.committed, other.overlay)), mine)
  {
    hide Sum, Seen;
    var committed' := Seen(s.committed, other.overlay);
    var after := Seen(committed', mine.overlay);
    forall owner ensures Sum(after, owner, Nothing) <= QUOTA {
      if s.lockKey(owner) in mine.locks {
        CommitShrinksLocked(s, mine, other, owner, Nothing);
      } else {
        CommitBoundsUnlocked(s, mine, other, owner);
      }
    }
    if mine.pending.Writing? {
      var w := mine.pending.write;
      CommitShrinksLocked(s, mine, other, w.row.owner, Excepted(w));
    }
  }

  lemma CommitKeeps(s: State, t: nat)
    requires Inv(s) && Enabled(s, Commit(t))
    ensures Inv(Apply(s, Commit(t)))
  {
    hide TxInv, InQuota;
    var committed' := View(s, t);
    var s' := Apply(s, Commit(t));
    ViewInQuota(s, t);
    forall u | 0 <= u < |s'.txs| ensures TxInv(s', s'.txs[u]) {
      if u == t {
        OverInv(s');
      } else {
        assert t < u ==> s.txs[t].locks !! s.txs[u].locks;
        assert u < t ==> s.txs[u].locks !! s.txs[t].locks;
        CommitKeepsOther(s, s.txs[u], s.txs[t]);
        TxInvFrame(s.(committed := committed'), s', s.txs[u]);
      }
    }
    StaysExclusive(s, t, OVER);
  }

  lemma ViewInQuota(s: State, t: nat)
    requires Inv(s) && t < |s.txs|
    ensures InQuota(View(s, t))
  {
    assert TxInv(s, s.txs[t]);
  }

  lemma OverInv(s: State)
    requires InQuota(s.committed)
    ensures TxInv(s, OVER)
  {
    UntouchedSees(s.committed);
  }

  lemma IdleKeeps(s: State, t: nat, pending: Pending)
    requires Inv(s) && t < |s.txs|
    requires pending.Idle? || (pending.Locking? && pending.write.Insert?)
    ensures Inv(With(s, t, s.txs[t].(pending := pending)))
  {
    assert TxInv(s, s.txs[t]);
    LocalKeeps(s, t, s.txs[t].(pending := pending));
  }

  lemma StepKeeps(s: State, step: Step)
    requires Inv(s) && Enabled(s, step)
    ensures Inv(Apply(s, step))
  {
    hide Inv, Clashes, Projected;
    match step
    case Begin => BeginKeeps(s);
    case StartInsert(t, row) => IdleKeeps(s, t, Locking(Insert(row)));
    case StartUpdate(t, id, row) => RewriteKeeps(s, t, id, row);
    case Lock(t) => LockKeeps(s, t);
    case Check(t) => CheckKeeps(s, t);
    case WriteRow(t) => if s.txs[t].pending.write.Insert? { InsertKeeps(s, t); } else { UpdateKeeps(s, t); }
    case Conflict(t, id, row) => RewriteKeeps(s, t, id, row);
    case SkipConflict(t) => IdleKeeps(s, t, Idle);
    case Delete(t, id) => DeleteKeeps(s, t, id);
    case Commit(t) => CommitKeeps(s, t);
    case Abort(t) => OverKeeps(s, t);
  }

  // ---------- runs ----------

  ghost predicate IsRun(s: State, steps: seq<Step>)
    decreases |steps|
  {
    steps != [] ==> Enabled(s, steps[0]) && IsRun(Apply(s, steps[0]), steps[1..])
  }

  ghost function After(s: State, steps: seq<Step>): State
    requires IsRun(s, steps)
    decreases |steps|
  {
    if steps == [] then s else After(Apply(s, steps[0]), steps[1..])
  }

  lemma {:induction false} RunKeeps(s: State, steps: seq<Step>)
    requires Inv(s) && IsRun(s, steps)
    ensures Inv(After(s, steps))
    decreases |steps|
  {
    hide Inv, Apply, Enabled;
    if steps != [] {
      StepKeeps(s, steps[0]);
      RunKeeps(Apply(s, steps[0]), steps[1..]);
    }
  }

  /** However transactions interleave, and whichever owners' locks share a hash: from any
    * table within the quota, what is committed keeps every owner within it, and so does what
    * any transaction sees. */
  lemma NeverOverQuota(rows: Table, lockKey: Owner -> int, steps: seq<Step>, owner: Owner)
    requires forall o :: |StoredText(rows, o)| <= 8388608
    requires IsRun(State(rows, [], lockKey), steps)
    ensures var s := After(State(rows, [], lockKey), steps);
            && |StoredText(s.committed, owner)| <= 8388608
            && forall t :: 0 <= t < |s.txs| ==> |StoredText(View(s, t), owner)| <= 8388608
  {
    hide StoredText, Sum, Apply, Enabled;
    var start := State(rows, [], lockKey);
    forall o ensures Sum(rows, o, Nothing) <= QUOTA { SumIsLength(rows, o); }
    RunKeeps(start, steps);
    var s := After(start, steps);
    SumIsLength(s.committed, owner);
    forall t | 0 <= t < |s.txs| ensures |StoredText(View(s, t), owner)| <= 8388608 {
      ViewInQuota(s, t);
      SumIsLength(View(s, t), owner);
    }
  }

  /** A new table stores nothing for anyone. */
  lemma NewTableStoresNothing(owner: Owner)
    ensures |StoredText([], owner)| == 0
  {
  }

  // ---------- what the steps do to the rows ----------

  /** A written row is in its transaction's view at once, and in no other's: an insert only
    * hands out a row id that is empty there. */
  lemma WriteIsSeen(s: State, t: nat, u: nat)
    requires Inv(s) && Enabled(s, WriteRow(t)) && u < |s.txs| && u != t
    ensures var s', w := Apply(s, WriteRow(t)), s.txs[t].pending.write;
            && View(s', t) == Written(View(s, t), w)
            && View(s', u) == View(s, u) + (if w.Insert? then [None] else [])
            && s'.committed == s.committed + (if w.Insert? then [None] else [])
  {
    hide InQuota, WritesLocked, Projected, Clashes;
    assert TxInv(s, s.txs[t]) && TxInv(s, s.txs[u]);
    var s', w := Apply(s, WriteRow(t)), s.txs[t].pending.write;
    assert View(s', t) == Written(View(s, t), w);
    assert View(s', u) == View(s, u) + (if w.Insert? then [None] else []);
  }

  lemma DeleteIsSeen(s: State, t: nat, id: nat, u: nat)
    requires Inv(s) && Enabled(s, Delete(t, id)) && u < |s.txs| && u != t
    ensures var s' := Apply(s, Delete(t, id));
            View(s', t) == View(s, t)[id := None] && View(s', u) == View(s, u) && s'.committed == s.committed
  {
  }

  /** A commit makes the transaction's view what is committed; an abort leaves what is. Both
    * give back every lock. */
  lemma EndsAreSeen(s: State, t: nat)
    requires t < |s.txs| && s.txs[t].open
    ensures Enabled(s, Commit(t)) ==> Apply(s, Commit(t)).committed == View(s, t) && Apply(s, Commit(t)).txs[t] == OVER
    ensures Apply(s, Abort(t)).committed == s.committed && Apply(s, Abort(t)).txs[t] == OVER
    ensures View(Apply(s, Abort(t)), t) == s.committed
  {
    UntouchedSees(s.committed);
  }

  // ---------- the table ----------

  /** The table and its open transactions, changed in place by a write that fires the trigger. */
  class TappStorage {
    const lockKey: Owner -> int
    var committed: Table
    var txs: seq<Tx>

    ghost function View(): State
      reads this
    {
      State(committed, txs, lockKey)
    }

    constructor (lockKey: Owner -> int)
      ensures View() == State([], [], lockKey) && Inv(View())
    {
      this.lockKey := lockKey;
      committed, txs := [], [];
    }

    method TakeLock(t: nat)
      requires Inv(View()) && Enabled(View(), Lock(t))
      modifies this
      ensures Inv(View()) && View() == Apply(old(View()), Lock(t))
    {
      hide Inv;
      StepKeeps(View(), Lock(t));
      var w := txs[t].pending.write;
      txs := txs[t := txs[t].(locks := txs[t].locks + {lockKey(w.row.owner)}, pending := Checking(w))];
    }

    /** Runs the trigger's sum; an exception ends the transaction. */
    method RunTrigger(t: nat) returns (ok: bool)
      requires Inv(View()) && Enabled(View(), Check(t))
      modifies this
      ensures Inv(View()) && View() == Apply(old(View()), Check(t))
      ensures committed == old(committed) && |txs| == |old(txs)| > t
      ensures txs[t] == if ok then old(txs)[t].(pending := Writing(old(txs)[t].pending.write)) else OVER
      ensures var w, rows := old(txs)[t].pending.write, Seen(committed, old(txs)[t].overlay);
              !Clashes(rows, w) && (w.Update? ==> w.id < |rows|) ==>
                (ok <==> |StoredText(Written(rows, w), w.row.owner)| <= 8388608)
    {
      StepKeeps(View(), Check(t));
      assert TxInv(View(), txs[t]);
      var w := txs[t].pending.write;
      ok := EnforceTappStorageQuota(Seen(committed, txs[t].overlay), w);
      txs := txs[t := if ok then txs[t].(pending := Writing(w)) else OVER];
    }

    method PutRow(t: nat)
      requires Inv(View()) && Enabled(View(), WriteRow(t))
      modifies this
      ensures Inv(View()) && View() == Apply(old(View()), WriteRow(t))
    {
      hide Inv;
      StepKeeps(View(), WriteRow(t));
      var tx := txs[t];
      var id: nat;
      if tx.pending.write.Insert? {
        id := |committed|;
        committed := committed + [None];
        tx := tx.(rowLocks := tx.rowLocks + {id});
      } else {
        id := tx.pending.write.id;
      }
      txs := txs[t := tx.(overlay := tx.overlay[id := Some(tx.pending.write.row)], pending := Idle)];
    }

    method CommitAll(t: nat)
      requires Inv(View()) && Enabled(View(), Commit(t))
      modifies this
      ensures Inv(View()) && View() == Apply(old(View()), Commit(t))
    {
      hide Inv;
      StepKeeps(View(), Commit(t));
      committed := Seen(committed, txs[t].overlay);
      txs := txs[t := OVER];
    }
  }
}
