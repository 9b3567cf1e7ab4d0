/** The username clean-up of `backend/migrations/006_oauth_identities.rs`: of the users whose
  * names agree up to case, all but the one with the least id get `_<id>` appended, and then
  * a unique index on the lowered name is created. */
module Usernames {
  import opened Common

  datatype User = User(id: nat, name: string)

  /** LOWER, character by character, by a collation's own table. */
  function Lower(name: string, table: char -> char): string {
    if name == [] then [] else [table(name[0])] + Lower(name[1..], table)
  }

  predicate IsDigit(c: char) { '0' <= c <= '9' }

  /** Digits and the underscore have no case. */
  ghost predicate Caseless(table: char -> char) {
    table('_') == '_' && forall c :: IsDigit(c) ==> table(c) == c
  }

  predicate SameName(a: User, b: User, table: char -> char) {
    Lower(a.name, table) == Lower(b.name, table)
  }

  ghost predicate DistinctIds(users: seq<User>) {
    forall i, j :: 0 <= i < j < |users| ==> users[i].id != users[j].id
  }

  // ---------- the rename ----------

  /** ROW_NUMBER() OVER (PARTITION BY LOWER(username) ORDER BY id) of one row. */
  function RowNumber(users: seq<User>, u: User, table: char -> char): nat {
    if users == [] then 0
    else RowNumber(users[1..], u, table) + if SameName(users[0], u, table) && users[0].id <= u.id then 1 else 0
  }

  function Suffixed(u: User): User {
    u.(name := u.name + "_" + Decimal(u.id))
  }

  function RenamedRow(users: seq<User>, u: User, table: char -> char): User {
    if RowNumber(users, u, table) > 1 then Suffixed(u) else u
  }

  /** Every row is renamed by what the table held before any was. */
  function Renamed(users: seq<User>, table: char -> char): (r: seq<User>)
    ensures |r| == |users|
  {
    seq(|users|, i requires 0 <= i < |users| => RenamedRow(users, users[i], table))
  }

  /** What `idx_users_username_unique` demands. */
  ghost predicate UniqueNames(users: seq<User>, table: char -> char) {
    forall i, j :: 0 <= i < j < |users| ==> !SameName(users[i], users[j], table)
  }

  ghost predicate IsDuplicate(users: seq<User>, i: nat, table: char -> char)
    requires i < |users|
  {
    exists j :: 0 <= j < |users| && SameName(users[j], users[i], table) && users[j].id < users[i].id
  }

  lemma {:induction false} RowNumberCounts(users: seq<User>, u: User, k: nat, table: char -> char)
    requires k < |users| && SameName(users[k], u, table) && users[k].id <= u.id
    ensures RowNumber(users, u, table) >= 1
    ensures forall j :: 0 <= j < |users| && j != k && SameName(users[j], u, table) && users[j].id <= u.id ==>
              RowNumber(users, u, table) >= 2
  {
    if k > 0 {
      RowNumberCounts(users[1..], u, k - 1, table);
    }
    forall j | 0 <= j < |users| && j != k && SameName(users[j], u, table) && users[j].id <= u.id
      ensures RowNumber(users, u, table) >= 2
    {
      if j == 0 {
      } else if k == 0 {
        RowNumberCounts(users[1..], u, j - 1, table);
      } else {
        assert users[1..][j - 1] == users[j];
      }
    }
  }

  lemma {:induction false} RowNumberOfOne(users: seq<User>, u: User, k: nat, table: char -> char)
    requires forall j :: 0 <= j < |users| && j != k ==> !(SameName(users[j], u, table) && users[j].id <= u.id)
    ensures RowNumber(users, u, table) <= 1
    ensures k >= |users| ==> RowNumber(users, u, table) == 0
  {
    if users != [] {
      if k == 0 {
        RowNumberOfOne(users[1..], u, |users|, table);
      } else {
        RowNumberOfOne(users[1..], u, k - 1, table);
      }
    }
  }

  /** A row is renamed exactly when a user with a smaller id has its name. */
  lemma RenamesDuplicates(users: seq<User>, i: nat, table: char -> char)
    requires DistinctIds(users) && i < |users|
    ensures Renamed(users, table)[i] == if IsDuplicate(users, i, table) then Suffixed(users[i]) else users[i]
  {
    if IsDuplicate(users, i, table) {
      RowNumberCounts(users, users[i], i, table);
    } else {
      forall j | 0 <= j < |users| && j != i ensures !(SameName(users[j], users[i], table) && users[j].id <= users[i].id) {
        assert i < j ==> users[i].id != users[j].id;
        assert j < i ==> users[j].id != users[i].id;
      }
      RowNumberOfOne(users, users[i], i, table);
    }
  }

  // ---------- renamed names differ ----------

  function ValueOf(digits: string): int {
    if digits == [] then 0 else 10 * ValueOf(digits[..|digits| - 1]) + (digits[|digits| - 1] as int - '0' as int)
  }

  lemma {:induction false} DecimalReads(n: nat)
    ensures ValueOf(Decimal(n)) == n
    ensures forall k :: 0 <= k < |Decimal(n)| ==> IsDigit(Decimal(n)[k])
  {
    var d := Decimal(n);
    if n >= 10 {
      DecimalReads(n / 10);
      assert d[..|d| - 1] == Decimal(n / 10);
    } else {
      assert d[..|d| - 1] == "";
    }
  }

  lemma NoUnderscoreLater(x: string, d: string, s: string, p: nat)
    requires s == x + "_" + d && p < |s| && s[p] == '_'
    requires forall k :: 0 <= k < |d| ==> d[k] != '_'
    ensures p <= |x|
  {
    forall k | |x| < k < |s| ensures s[k] != '_' {
      assert s[k] == d[k - |x| - 1];
    }
  }

  /** What follows the last underscore is determined. */
  lemma SplitsAtLast(x: string, d: string, y: string, e: string)
    requires x + "_" + d == y + "_" + e
    requires forall k :: 0 <= k < |d| ==> d[k] != '_'
    requires forall k :: 0 <= k < |e| ==> e[k] != '_'
    ensures x == y && d == e
  {
    var a, b := x + "_" + d, y + "_" + e;
    assert a[|x|] == '_' && b[|y|] == '_';
    NoUnderscoreLater(x, d, a, |y|);
    NoUnderscoreLater(y, e, b, |x|);
    assert a[..|x|] == x && b[..|y|] == y;
    assert a[|x| + 1..] == d && b[|y| + 1..] == e;
  }

  lemma {:induction false} LowerAppends(a: string, b: string, table: char -> char)
    ensures Lower(a + b, table) == Lower(a, table) + Lower(b, table)
  {
    if a == [] {
      assert a + b == b;
    } else {
      assert (a + b)[1..] == a[1..] + b;
      LowerAppends(a[1..], b, table);
    }
  }

  lemma {:induction false} LowerOfDigits(digits: string, table: char -> char)
    requires Caseless(table) && forall k :: 0 <= k < |digits| ==> IsDigit(digits[k])
    ensures Lower(digits, table) == digits
  {
    if digits != [] {
      LowerOfDigits(digits[1..], table);
      assert IsDigit(digits[0]) && [digits[0]] + digits[1..] == digits;
    }
  }

  lemma LowerOfSuffixed(u: User, table: char -> char)
    requires Caseless(table)
    ensures Lower(Suffixed(u).name, table) == Lower(u.name, table) + "_" + Decimal(u.id)
  {
    DecimalReads(u.id);
    LowerOfDigits(Decimal(u.id), table);
    LowerAppends(u.name + "_", Decimal(u.id), table);
    LowerAppends(u.name, "_", table);
    assert Lower("_", table) == "_" by { assert Lower("", table) == ""; }
  }

  /** No two ids append the same, whatever they are appended to. */
  lemma SuffixesDiffer(a: User, b: User, table: char -> char)
    requires Caseless(table) && a.id != b.id
    ensures !SameName(Suffixed(a), Suffixed(b), table)
  {
    if SameName(Suffixed(a), Suffixed(b), table) {
      LowerOfSuffixed(a, table);
      LowerOfSuffixed(b, table);
      DecimalReads(a.id);
      DecimalReads(b.id);
      SplitsAtLast(Lower(a.name, table), Decimal(a.id), Lower(b.name, table), Decimal(b.id));
      assert false;
    }
  }

  /** No two kept users share a name. */
  lemma KeptDiffer(users: seq<User>, i: nat, j: nat, table: char -> char)
    requires DistinctIds(users) && i < j < |users|
    requires !IsDuplicate(users, i, table) && !IsDuplicate(users, j, table)
    ensures !SameName(users[i], users[j], table)
  {
    if SameName(users[i], users[j], table) {
      assert users[i].id < users[j].id || users[j].id < users[i].id;
      assert SameName(users[j], users[i], table);
    }
  }

  /** A name kept that equals one the rename is about to write: readable off the table before. */
  ghost predicate Collides(users: seq<User>, table: char -> char) {
    exists i, j :: 0 <= i < |users| && 0 <= j < |users| && !IsDuplicate(users, i, table) && IsDuplicate(users, j, table)
      && Lower(users[i].name, table) == Lower(users[j].name, table) + "_" + Decimal(users[j].id)
  }

  lemma PairDiffers(users: seq<User>, i: nat, j: nat, table: char -> char)
    requires Caseless(table) && DistinctIds(users) && !Collides(users, table) && i < j < |users|
    ensures !SameName(Renamed(users, table)[i], Renamed(users, table)[j], table)
  {
    hide Lower, Renamed, IsDuplicate;
    RenamesDuplicates(users, i, table);
    RenamesDuplicates(users, j, table);
    LowerOfSuffixed(users[i], table);
    LowerOfSuffixed(users[j], table);
    if IsDuplicate(users, i, table) && IsDuplicate(users, j, table) {
      SuffixesDiffer(users[i], users[j], table);
    } else if !IsDuplicate(users, i, table) && !IsDuplicate(users, j, table) {
      KeptDiffer(users, i, j, table);
    }
  }

  /** After the rename the unique index can be created exactly when no kept name equals a
    * renamed one. */
  lemma IndexHoldsExactly(users: seq<User>, table: char -> char)
    requires Caseless(table) && DistinctIds(users)
    ensures UniqueNames(Renamed(users, table), table) <==> !Collides(users, table)
  {
    if Collides(users, table) {
      var i, j :| 0 <= i < |users| && 0 <= j < |users| && !IsDuplicate(users, i, table) && IsDuplicate(users, j, table)
        && Lower(users[i].name, table) == Lower(users[j].name, table) + "_" + Decimal(users[j].id);
      CollisionIsRepeated(users, i, j, table);
    } else {
      forall i, j | 0 <= i < j < |users| ensures !SameName(Renamed(users, table)[i], Renamed(users, table)[j], table) {
        PairDiffers(users, i, j, table);
      }
    }
  }

  lemma CollisionIsRepeated(users: seq<User>, i: nat, j: nat, table: char -> char)
    requires Caseless(table) && DistinctIds(users) && i < |users| && j < |users|
    requires !IsDuplicate(users, i, table) && IsDuplicate(users, j, table)
    requires Lower(users[i].name, table) == Lower(users[j].name, table) + "_" + Decimal(users[j].id)
    ensures !UniqueNames(Renamed(users, table), table)
  {
    hide Lower, IsDuplicate;
    RenamesDuplicates(users, i, table);
    RenamesDuplicates(users, j, table);
    LowerOfSuffixed(users[j], table);
    var r := Renamed(users, table);
    assert i != j && SameName(r[i], r[j], table) && SameName(r[j], r[i], table);
  }

  /** A table that already meets the index is left as it is, so a repeated run changes nothing. */
  lemma UniqueIsUntouched(users: seq<User>, table: char -> char)
    requires DistinctIds(users) && UniqueNames(users, table)
    ensures Renamed(users, table) == users
  {
    hide Renamed, SameName;
    forall i | 0 <= i < |users| ensures Renamed(users, table)[i] == users[i] {
      RenamesDuplicates(users, i, table);
      UniqueHasNoDuplicate(users, i, table);
    }
  }

  lemma UniqueHasNoDuplicate(users: seq<User>, i: nat, table: char -> char)
    requires UniqueNames(users, table) && i < |users|
    ensures !IsDuplicate(users, i, table)
  {
    forall j | 0 <= j < |users| && users[j].id < users[i].id ensures !SameName(users[j], users[i], table) {
      assert i < j ==> !SameName(users[i], users[j], table);
    }
  }

  function AsciiLower(c: char): char {
    if 'A' <= c <= 'Z' then c + 32 as char else c
  }

  const CLASH := [User(1, "a"), User(2, "A"), User(3, "a_2")]

  /** Three users the rename does not separate: the index cannot be created. */
  lemma RenamedMayCollide()
    ensures Caseless(AsciiLower) && DistinctIds(CLASH)
    ensures Renamed(CLASH, AsciiLower) == [User(1, "a"), User(2, "A_2"), User(3, "a_2")]
    ensures !UniqueNames(Renamed(CLASH, AsciiLower), AsciiLower)
  {
    hide Renamed, RowNumber, Lower, IsDuplicate;
    ClashDuplicates();
    RenamesDuplicates(CLASH, 0, AsciiLower);
    RenamesDuplicates(CLASH, 1, AsciiLower);
    RenamesDuplicates(CLASH, 2, AsciiLower);
    assert Decimal(2) == "2";
    var r := Renamed(CLASH, AsciiLower);
    assert Suffixed(CLASH[1]).name == "A_2";
    LowerOfThree('a', '_', '2');
    LowerOfThree('A', '_', '2');
    assert SameName(r[1], r[2], AsciiLower);
  }

  lemma ClashDuplicates()
    ensures !IsDuplicate(CLASH, 0, AsciiLower) && IsDuplicate(CLASH, 1, AsciiLower) && !IsDuplicate(CLASH, 2, AsciiLower)
  {
    assert Lower("a", AsciiLower) == "a" && Lower("A", AsciiLower) == "a";
    LowerOfThree('a', '_', '2');
    assert SameName(CLASH[0], CLASH[1], AsciiLower);
  }

  lemma LowerOfThree(a: char, b: char, c: char)
    ensures Lower([a, b, c], AsciiLower) == [AsciiLower(a), AsciiLower(b), AsciiLower(c)]
  {
    assert [a, b, c][1..] == [b, c] && [b, c][1..] == [c] && [c][1..] == [];
    assert Lower([c], AsciiLower) == [AsciiLower(c)];
    assert Lower([b, c], AsciiLower) == [AsciiLower(b)] + [AsciiLower(c)];
  }

  // ---------- the table ----------

  class UsersTable {
    var rows: seq<User>
    var indexed: bool   // idx_users_username_unique exists
    const table: char -> char

    /** The UPDATE: ids and order stay, duplicates get their id appended, no other row changes. */
    method RenameDuplicates()
      requires DistinctIds(rows)
      modifies this`rows
      ensures rows == Renamed(old(rows), table) && DistinctIds(rows)
      ensures forall i :: 0 <= i < |rows| ==>
                rows[i] == if IsDuplicate(old(rows), i, table) then Suffixed(old(rows)[i]) else old(rows)[i]
    {
      ghost var before := rows;
      rows := seq(|rows|, i requires 0 <= i < |rows| reads this =>
                if RowNumber(rows, rows[i], table) > 1 then Suffixed(rows[i]) else rows[i]);
      assert rows == Renamed(before, table);
      forall i | 0 <= i < |rows|
        ensures rows[i] == if IsDuplicate(before, i, table) then Suffixed(before[i]) else before[i]
      {
        RenamesDuplicates(before, i, table);
      }
    }

    /** The rename, then the index: it fails exactly when a kept name equals a renamed one. */
    method MakeUnique() returns (ok: bool)
      requires Caseless(table) && DistinctIds(rows)
      modifies this
      ensures ok <==> !Collides(old(rows), table)
      ensures ok ==> indexed && UniqueNames(rows, table) && rows == Renamed(old(rows), table)
    {
      IndexHoldsExactly(rows, table);
      RenameDuplicates();
      ok := forall i, j :: 0 <= i < j < |rows| ==> !SameName(rows[i], rows[j], table);
      if ok { indexed := true; }
    }
  }
}
