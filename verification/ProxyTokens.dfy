/** The grammar of the list-valued headers the proxy reads: fields of elements between commas,
  * blanks around an element, names in any case. */
module ProxyTokens {
  import opened Common
  import opened Letters
  import opened ProxyHeaders

  // ---------- fields and elements ----------

  function Join(parts: seq<string>): string {
    if |parts| == 0 then "" else if |parts| == 1 then parts[0] else parts[0] + ("," + Join(parts[1..]))
  }

  /** One header field of a chain: entries, or bytes that are not text and are skipped. */
  datatype ChainField = Entries(parts: seq<string>) | NotText(value: string)

  function EntriesOf(f: ChainField): seq<string> {
    match f
    case Entries(parts) => parts
    case NotText(_) => []
  }

  function ValueOf(f: ChainField): string {
    match f
    case Entries(parts) => Join(parts)
    case NotText(value) => value
  }

  /** The entries of all the fields, in wire order. */
  function Flatten(fields: seq<ChainField>): seq<string> {
    if fields == [] then [] else EntriesOf(fields[0]) + Flatten(fields[1..])
  }

  /** The values of all the fields. */
  function JoinAll(fields: seq<ChainField>): seq<string> {
    if fields == [] then [] else [ValueOf(fields[0])] + JoinAll(fields[1..])
  }

  /** What a text value may hold: visible ASCII, spaces and tabs. */
  predicate IsPlain(c: char) {
    c == '\t' || (' ' <= c && c <= '~')
  }

  /** Any text between two commas. */
  predicate IsEntry(part: string) {
    forall i :: 0 <= i < |part| ==> IsPlain(part[i]) && part[i] != ','
  }

  lemma {:induction false} SplitAt(s: string, t: string)
    requires ',' !in s
    ensures Split(s + ("," + t)) == [s] + Split(t)
  {
    var whole := s + ("," + t);
    if s == "" {
      assert whole == "," + t && whole[1..] == t;
    } else {
      assert whole[1..] == s[1..] + ("," + t);
      SplitAt(s[1..], t);
      assert [s[0]] + s[1..] == s;
    }
  }

  lemma {:induction false} SplitJoin(parts: seq<string>)
    requires parts != [] && forall i :: 0 <= i < |parts| ==> IsEntry(parts[i])
    ensures Split(Join(parts)) == parts && IsText(Join(parts))
  {
    if |parts| == 1 {
      SplitNoComma(parts[0]);
    } else {
      SplitJoin(parts[1..]);
      SplitAt(parts[0], Join(parts[1..]));
      assert [parts[0]] + parts[1..] == parts;
      assert IsText(parts[0] + ("," + Join(parts[1..])));
    }
  }

  predicate FieldOk(f: ChainField) {
    match f
    case Entries(parts) => parts != [] && forall j :: 0 <= j < |parts| ==> IsEntry(parts[j])
    case NotText(value) => exists i :: 0 <= i < |value| && !IsPlain(value[i])
  }

  predicate AllFieldsOk(fields: seq<ChainField>) {
    forall i :: 0 <= i < |fields| ==> FieldOk(fields[i])
  }

  lemma {:induction false} SplitNoComma(s: string)
    requires ',' !in s
    ensures Split(s) == [s]
  {
    if s != "" {
      SplitNoComma(s[1..]);
      assert [s[0]] + s[1..] == s;
    }
  }

  lemma TrimTight(s: string)
    requires s == "" || (!IsSpace(s[0]) && !IsSpace(s[|s| - 1]))
    ensures Trim(s) == s
  {
  }

  // ---------- blanks around an element ----------

  predicate IsBlank(c: char) {
    c == ' ' || c == '\t'
  }

  predicate AllBlank(s: string) {
    forall i :: 0 <= i < |s| ==> IsBlank(s[i])
  }

  predicate IsTight(core: string) {
    core != "" ==> !IsBlank(core[0]) && !IsBlank(core[|core| - 1])
  }

  predicate PadsWith(part: string, before: string, core: string, behind: string) {
    part == before + (core + behind) && AllBlank(before) && AllBlank(behind) && IsTight(core)
  }

  /** The part is the element, with any blanks around it. */
  ghost predicate Pads(part: string, core: string) {
    exists before, behind :: PadsWith(part, before, core, behind)
  }

  lemma {:induction false} TrimsStart(before: string, rest: string)
    requires AllBlank(before) && (rest != "" ==> !IsSpace(rest[0]))
    ensures TrimStart(before + rest) == rest
  {
    if before == "" {
      assert before + rest == rest;
    } else {
      assert (before + rest)[1..] == before[1..] + rest;
      TrimsStart(before[1..], rest);
    }
  }

  lemma {:induction false} TrimsEnd(core: string, behind: string)
    requires AllBlank(behind) && (core != "" ==> !IsSpace(core[|core| - 1]))
    ensures TrimEnd(core + behind) == core
    decreases |behind|
  {
    if behind == "" {
      assert core + behind == core;
    } else {
      assert (core + behind)[..|core + behind| - 1] == core + behind[..|behind| - 1];
      TrimsEnd(core, behind[..|behind| - 1]);
    }
  }

  lemma TrimGivesCore(part: string, before: string, core: string, behind: string)
    requires PadsWith(part, before, core, behind)
    ensures Trim(part) == core
  {
    if core == "" {
      assert part == (before + behind) + "" && AllBlank(before + behind);
      TrimsStart(before + behind, "");
      TrimsEnd("", "");
      assert "" + "" == "";
    } else {
      assert (core + behind)[0] == core[0];
      TrimsStart(before, core + behind);
      TrimsEnd(core, behind);
    }
  }

  lemma {:induction false} StartSplits(s: string) returns (before: string)
    ensures AllBlank(before) && s == before + TrimStart(s)
    ensures TrimStart(s) != "" ==> !IsSpace(TrimStart(s)[0])
  {
    if s != "" && IsSpace(s[0]) {
      before := StartSplits(s[1..]);
      assert s == [s[0]] + (before + TrimStart(s[1..]));
      before := [s[0]] + before;
      assert s == before + TrimStart(s);
    } else {
      before := "";
      assert s == "" + s;
    }
  }

  lemma {:induction false} EndSplits(s: string) returns (behind: string)
    ensures AllBlank(behind) && s == TrimEnd(s) + behind
    ensures TrimEnd(s) != "" ==> !IsSpace(TrimEnd(s)[|TrimEnd(s)| - 1])
    ensures TrimEnd(s) != "" ==> TrimEnd(s)[0] == s[0]
  {
    if s != "" && IsSpace(s[|s| - 1]) {
      behind := EndSplits(s[..|s| - 1]);
      assert s == (TrimEnd(s) + behind) + [s[|s| - 1]];
      behind := behind + [s[|s| - 1]];
      assert s == TrimEnd(s) + behind;
    } else {
      behind := "";
      assert s == s + "";
    }
  }

  /** Trimming gives the one element a part pads. */
  lemma TrimIsTheElement(part: string, core: string)
    ensures Pads(part, core) <==> Trim(part) == core
  {
    if Pads(part, core) {
      var before, behind :| PadsWith(part, before, core, behind);
      TrimGivesCore(part, before, core, behind);
    }
    if Trim(part) == core {
      var before := StartSplits(part);
      var behind := EndSplits(TrimStart(part));
      assert PadsWith(part, before, core, behind);
    }
  }

  // ---------- names, in any case ----------

  /** A character of a header name. */
  predicate IsNameChar(c: char) {
    || c in UPPER_LETTERS || c in LOWER_LETTERS || c in DIGITS
    || c == '!' || c == '#' || c == '$' || c == '%' || c == '&' || c == '\'' || c == '*' || c == '+'
    || c == '-' || c == '.' || c == '^' || c == '_' || c == '`' || c == '|' || c == '~'
  }

  lemma NameCharsAgree(c: char)
    ensures IsNameChar(c) <==> IsTokenChar(c)
  {
    UpperIsRange(c);
    LowerIsRange(c);
    DigitIsRange(c);
  }

  /** A header name as a header map keeps it: without upper-case letters. */
  predicate IsKey(n: string) {
    n != "" && forall i :: 0 <= i < |n| ==> IsNameChar(n[i]) && n[i] !in UPPER_LETTERS
  }

  /** The second is the first, or its lower case. */
  predicate SameLetter(a: char, b: char) {
    a == b || exists k :: 0 <= k < 26 && UPPER_LETTERS[k] == a && LOWER_LETTERS[k] == b
  }

  predicate SameName(a: string, n: string) {
    |a| == |n| && forall i :: 0 <= i < |n| ==> SameLetter(a[i], n[i])
  }

  lemma LowersLetter(a: char, b: char)
    requires b !in UPPER_LETTERS
    ensures SameLetter(a, b) <==> ToLower(a) == b
  {
    UpperIsRange(a);
    UpperIsRange(b);
    if a in UPPER_LETTERS {
      var k := (a - 'A') as nat;
      UpperAt(k);
      LowerAt(k);
    }
    if a != b && SameLetter(a, b) {
      var k :| 0 <= k < 26 && UPPER_LETTERS[k] == a && LOWER_LETTERS[k] == b;
      UpperAt(k);
      LowerAt(k);
    }
  }

  /** The program's lowering finds a key under any case. */
  lemma LowersToKey(a: string, n: string)
    requires IsKey(n)
    ensures Lower(a) == n <==> SameName(a, n)
  {
    hide SameLetter, ToLower, IsNameChar;
    if Lower(a) == n || SameName(a, n) {
      forall i | 0 <= i < |n| ensures SameLetter(a[i], n[i]) <==> Lower(a)[i] == n[i] {
        LowersLetter(a[i], n[i]);
      }
    }
  }

  lemma NamesOfKeys(a: string, n: string)
    requires IsKey(n) && SameName(a, n)
    ensures IsHeaderName(a)
  {
    hide SameLetter, IsNameChar, IsTokenChar;
    forall i | 0 <= i < |a| ensures IsTokenChar(a[i]) {
      LowersLetter(a[i], n[i]);
      NameCharsAgree(n[i]);
      LoweredTokens(a[i]);
    }
  }

  lemma LoweredTokens(c: char)
    requires IsTokenChar(ToLower(c))
    ensures IsTokenChar(c)
  {
  }

  // ---------- what the Connection fields nominate ----------

  /** The element of the part is the name, in any case. */
  ghost predicate Reads(part: string, n: string) {
    exists core :: Pads(part, core) && SameName(core, n)
  }

  /** Some element of some field that is text is the name. */
  ghost predicate Nominates(fields: seq<ChainField>, n: string) {
    exists i :: 0 <= i < |fields| && NominatedBy(fields[i], n)
  }

  ghost predicate NominatedBy(f: ChainField, n: string) {
    f.Entries? && exists j :: 0 <= j < |f.parts| && Reads(f.parts[j], n)
  }

  lemma ReadsExactly(part: string, n: string)
    requires IsKey(n)
    ensures Reads(part, n) <==> IsHeaderName(Trim(part)) && Lower(Trim(part)) == n
  {
    hide Pads, SameName, IsKey, Lower, Trim, IsHeaderName;
    if Reads(part, n) {
      var core :| Pads(part, core) && SameName(core, n);
      TrimIsTheElement(part, core);
      LowersToKey(core, n);
      NamesOfKeys(core, n);
    }
    if IsHeaderName(Trim(part)) && Lower(Trim(part)) == n {
      TrimIsTheElement(part, Trim(part));
      LowersToKey(Trim(part), n);
    }
  }

  /** One field: its tokens are the names its elements read as. */
  lemma FieldNominates(f: ChainField, n: string)
    requires FieldOk(f) && IsKey(n)
    ensures n in TokensOf(ValueOf(f)) <==> NominatedBy(f, n)
  {
    hide IsKey, Reads, Trim, Lower, IsHeaderName, Split;
    match f {
      case Entries(parts) =>
        SplitJoin(parts);
        forall j | 0 <= j < |parts| ensures Reads(parts[j], n) <==> IsHeaderName(Trim(parts[j])) && Lower(Trim(parts[j])) == n {
          ReadsExactly(parts[j], n);
        }
        if n in TokensOf(ValueOf(f)) {
          var part :| part in parts && IsHeaderName(Trim(part)) && Lower(Trim(part)) == n;
        }
        if NominatedBy(f, n) {
          var j :| 0 <= j < |parts| && Reads(parts[j], n);
          assert parts[j] in parts;
        }
      case NotText(value) =>
    }
  }

  lemma {:induction false} TokensAppend(values: seq<string>, more: seq<string>)
    ensures Tokens(values + more) == Tokens(values) + Tokens(more)
  {
    if more == [] {
      assert values + more == values;
    } else {
      assert (values + more)[..|values + more| - 1] == values + more[..|more| - 1];
      TokensAppend(values, more[..|more| - 1]);
    }
  }

  lemma TokensOfOne(value: string)
    ensures Tokens([value]) == TokensOf(value)
  {
    assert [value][..0] == [];
  }

  /** Any Connection fields: a name is nominated exactly if an element of a field that is text
    * is that name in any case, whatever blanks are around it and whatever else is there. */
  lemma {:induction false} NominatesExactly(fields: seq<ChainField>, n: string)
    requires AllFieldsOk(fields) && IsKey(n)
    ensures n in Tokens(JoinAll(fields)) <==> Nominates(fields, n)
  {
    hide IsKey, TokensOf, NominatedBy, FieldOk;
    if fields != [] {
      var rest := fields[1..];
      assert FieldOk(fields[0]);
      NominatesExactly(rest, n);
      FieldNominates(fields[0], n);
      TokensOfOne(ValueOf(fields[0]));
      TokensAppend([ValueOf(fields[0])], JoinAll(rest));
      if Nominates(rest, n) {
        var i :| 0 <= i < |rest| && NominatedBy(rest[i], n);
        assert NominatedBy(fields[i + 1], n);
      }
      if Nominates(fields, n) {
        var i :| 0 <= i < |fields| && NominatedBy(fields[i], n);
        if i > 0 { assert rest[i - 1] == fields[i]; }
      }
    }
  }

  // ---------- every header has such fields ----------

  lemma {:induction false} JoinSplit(s: string)
    ensures Join(Split(s)) == s
  {
    if s != "" {
      JoinSplit(s[1..]);
      var rest := Split(s[1..]);
      assert s == [s[0]] + s[1..];
      if s[0] == ',' {
        assert Split(s) == [""] + rest && Split(s)[1..] == rest;
        assert s == "" + ("," + s[1..]);
      } else {
        var first := [s[0]] + rest[0];
        assert Split(s) == [first] + rest[1..] && Split(s)[1..] == rest[1..];
        if |rest| > 1 { assert [s[0]] + (rest[0] + ("," + Join(rest[1..]))) == first + ("," + Join(rest[1..])); }
      }
    }
  }

  lemma {:induction false} SplitIsEntries(s: string)
    requires IsText(s)
    ensures forall j :: 0 <= j < |Split(s)| ==> IsEntry(Split(s)[j])
  {
    if s != "" {
      SplitIsEntries(s[1..]);
      var rest := Split(s[1..]);
      if s[0] == ',' {
        assert Split(s) == [""] + rest;
      } else {
        assert Split(s) == [[s[0]] + rest[0]] + rest[1..];
        assert IsEntry(rest[0]);
      }
    }
  }

  /** Any header values can be written as fields of the grammar. */
  lemma {:induction false} EveryHeaderHasFields(values: seq<string>) returns (fields: seq<ChainField>)
    ensures AllFieldsOk(fields) && JoinAll(fields) == values
  {
    if values == [] {
      fields := [];
    } else {
      var value := values[0];
      var rest := EveryHeaderHasFields(values[1..]);
      var f := NotText(value);
      if IsText(value) {
        JoinSplit(value);
        SplitIsEntries(value);
        f := Entries(Split(value));
      }
      fields := [f] + rest;
      assert fields[1..] == rest;
    }
  }
}
