/** The revision triggers of `backend/migrations/003_phantasi_system.rs`: BEFORE UPDATE row
  * triggers that assign a row's revision whatever the statement set it to. NULL is None. */
module Revisions {
  import opened Common

  // ---------- items ----------

  datatype Item = Item(content: Option<string>, contentMd: Option<string>, contentRevision: int, other: string)

  /** What a statement makes of the row before the trigger sees it: any columns at all,
    * the revision included. */
  type Update = Item

  function AdvanceContentRevision(o: Item, n: Item): Item {
    if n.content != o.content || n.contentMd != o.contentMd then n.(contentRevision := o.contentRevision + 1)
    else n.(contentRevision := o.contentRevision)
  }

  function ItemAfter(start: Item, updates: seq<Update>): Item {
    if updates == [] then start
    else AdvanceContentRevision(ItemAfter(start, updates[..|updates| - 1]), updates[|updates| - 1])
  }

  lemma ItemAfterOneMore(start: Item, updates: seq<Update>, last: Update)
    ensures ItemAfter(start, updates + [last]) == AdvanceContentRevision(ItemAfter(start, updates), last)
  {
    assert (updates + [last])[..|updates|] == updates;
  }

  predicate SameText(a: Item, b: Item) {
    a.content == b.content && a.contentMd == b.contentMd
  }

  /** How many updates of the run changed the text. */
  function TextChanges(start: Item, updates: seq<Update>): nat {
    if updates == [] then 0
    else
      var before := updates[..|updates| - 1];
      TextChanges(start, before) + if SameText(ItemAfter(start, before), updates[|updates| - 1]) then 0 else 1
  }

  /** The revision counts the changes of the text, and nothing a statement sets moves it. */
  lemma {:induction false} RevisionCountsChanges(start: Item, updates: seq<Update>)
    ensures ItemAfter(start, updates).contentRevision == start.contentRevision + TextChanges(start, updates)
    ensures updates != [] ==> SameText(ItemAfter(start, updates), updates[|updates| - 1])
  {
    if updates != [] { RevisionCountsChanges(start, updates[..|updates| - 1]); }
  }

  /** Between two states of one row: no fewer changes, and none means the same text. */
  lemma {:induction false} ChangesGrow(start: Item, updates: seq<Update>, i: nat)
    requires i <= |updates|
    ensures TextChanges(start, updates[..i]) <= TextChanges(start, updates)
    ensures TextChanges(start, updates[..i]) == TextChanges(start, updates) ==>
              SameText(ItemAfter(start, updates[..i]), ItemAfter(start, updates))
    decreases |updates|
  {
    if i == |updates| {
      assert updates[..i] == updates;
    } else {
      var before := updates[..|updates| - 1];
      assert before[..i] == updates[..i];
      ChangesGrow(start, before, i);
    }
  }

  /** Any two states in a row's life with one content revision hold the same content and
    * Markdown; so a reader that kept a revision may keep the text. */
  lemma SameRevisionSameText(start: Item, updates: seq<Update>, i: nat, j: nat)
    requires i <= j <= |updates|
    ensures var a, b := ItemAfter(start, updates[..i]), ItemAfter(start, updates[..j]);
            && a.contentRevision <= b.contentRevision
            && (a.contentRevision == b.contentRevision ==> SameText(a, b))
  {
    ChangesGrow(start, updates[..j], i);
    assert updates[..j][..i] == updates[..i];
    RevisionCountsChanges(start, updates[..i]);
    RevisionCountsChanges(start, updates[..j]);
  }

  /** The converse fails: text that changes and changes back has moved on two revisions. */
  lemma TextMayReturn(start: Item, other: Item)
    requires !SameText(start, other)
    ensures SameText(ItemAfter(start, [other, start]), start)
    ensures ItemAfter(start, [other, start]).contentRevision == start.contentRevision + 2
  {
    assert [other, start][..1] == [other] && [other][..0] == [];
    assert ItemAfter(start, [other]) == AdvanceContentRevision(start, other);
  }

  // ---------- reading states ----------

  datatype Reading = Reading(state: string, revision: int)

  function AdvanceStateRevision(o: Reading, n: Reading): Reading {
    n.(revision := o.revision + 1)
  }

  function ReadingAfter(start: Reading, updates: seq<Reading>): Reading {
    if updates == [] then start
    else AdvanceStateRevision(ReadingAfter(start, updates[..|updates| - 1]), updates[|updates| - 1])
  }

  /** A reading state's revision is its number of updates, so no two states share one. */
  lemma {:induction false} StateRevisionCounts(start: Reading, updates: seq<Reading>)
    ensures ReadingAfter(start, updates).revision == start.revision + |updates|
  {
    if updates != [] { StateRevisionCounts(start, updates[..|updates| - 1]); }
  }

  lemma StateRevisionGrows(start: Reading, updates: seq<Reading>, i: nat, j: nat)
    requires i < j <= |updates|
    ensures ReadingAfter(start, updates[..i]).revision < ReadingAfter(start, updates[..j]).revision
  {
    StateRevisionCounts(start, updates[..i]);
    StateRevisionCounts(start, updates[..j]);
  }

  // ---------- the rows ----------

  /** A row of `phantasi_items` that UPDATE changes in place; `history` is its life so far. */
  class ItemRow {
    var row: Item
    ghost var start: Item
    ghost var history: seq<Update>

    ghost predicate Valid()
      reads this
    {
      row == ItemAfter(start, history)
    }

    constructor (row: Item)
      ensures Valid() && this.row == row && history == []
    {
      this.row, start, history := row, row, [];
    }

    method Set(set_: Update)
      requires Valid()
      modifies this
      ensures Valid() && start == old(start) && history == old(history) + [set_]
      ensures row == set_.(contentRevision := row.contentRevision)
      ensures row.contentRevision == old(row).contentRevision + if SameText(old(row), set_) then 0 else 1
    {
      hide ItemAfter;
      ItemAfterOneMore(start, history, set_);
      var next := set_;
      if next.content != row.content || next.contentMd != row.contentMd {
        next := next.(contentRevision := row.contentRevision + 1);
      } else {
        next := next.(contentRevision := row.contentRevision);
      }
      history := history + [set_];
      row := next;
    }
  }

  /** A row of `phantasi_user_states`. */
  class ReadingRow {
    var row: Reading

    constructor (row: Reading)
      ensures this.row == row
    {
      this.row := row;
    }

    method Set(next: Reading)
      modifies this
      ensures row.state == next.state && row.revision == old(row).revision + 1
      ensures row == AdvanceStateRevision(old(row), next)
    {
      row := next.(revision := row.revision + 1);
    }
  }
}
