/** What the comment extractor returns on any text at all. */
module RustCommentSlices {
  import opened RustText
  import opened RustComments

  function End(f: Found): nat {
    f.start + |f.text|
  }

  /** A comment taken from the text where it says, opened as a comment, its line right up
    * to the newlines the program's counter has missed. */
  ghost predicate Begun(text: string, f: Found) {
    && End(f) <= |text| && text[f.start..End(f)] == f.text
    && ("//" <= f.text || "/*" <= f.text)
    && f.line + f.slips == 1 + Newlines(text[..f.start])
  }

  /** A line comment runs to the end of its line, a block comment to a closing mark. */
  ghost predicate Whole(text: string, f: Found) {
    && Begun(text, f)
    && ("//" <= f.text ==> '\n' !in f.text && (End(f) < |text| ==> text[End(f)] == '\n'))
    && ("/*" <= f.text ==> |f.text| >= 4 && f.text[|f.text| - 2..] == "*/")
  }

  ghost predicate Slices(text: string, from: nat, found: seq<Found>)
    decreases |found|
  {
    found != [] ==> Whole(text, found[0]) && from <= found[0].start && Slices(text, End(found[0]), found[1..])
  }

  // ---------- newlines ----------

  lemma {:induction false} NewlinesAppend(a: string, b: string)
    ensures Newlines(a + b) == Newlines(a) + Newlines(b)
  {
    if a == "" {
      assert a + b == b;
    } else {
      assert (a + b)[1..] == a[1..] + b;
      NewlinesAppend(a[1..], b);
    }
  }

  lemma {:induction false} NoNewlines(s: string)
    requires '\n' !in s
    ensures Newlines(s) == 0
  {
    if s != "" { NoNewlines(s[1..]); }
  }

  lemma Newlines1(c: char)
    ensures Newlines([c]) == Newline(c)
  {
    assert [c][1..] == "";
  }

  lemma Newlines2(c: char, d: char)
    ensures Newlines([c, d]) == Newline(c) + Newline(d)
  {
    NewlinesAppend([c], [d]);
    Newlines1(c);
    Newlines1(d);
    assert [c, d] == [c] + [d];
  }

  /** Over an opening in code no newline is passed but a lone one. */
  lemma CodeTurnCounts(cur: Cursor, rest: string)
    requires rest != "" && cur.mode.Code? && TurnOf(cur, rest).n <= |rest|
    ensures var t := TurnOf(cur, rest);
            t.line + t.slips == cur.line + cur.slips + Newlines(rest[..t.n])
  {
    var t := TurnOf(cur, rest);
    if t.n == 1 {
      assert rest[..1] == [rest[0]];
      Newlines1(rest[0]);
    } else {
      LeadingHashesBound(Drop(rest, 1));
      LeadingHashesBound(Drop(rest, 2));
      LeadingIdentBound(rest[1..]);
      forall i | 0 <= i < t.n ensures rest[i] != '\n' {
        if i > 1 {
          assert Drop(rest, 1)[i - 1] == rest[i] && Drop(rest, 2)[i - 2] == rest[i];
        } else if i == 1 {
          assert Drop(rest, 1)[0] == rest[1];
        }
      }
      NoNewlines(rest[..t.n]);
    }
  }

  lemma RawTurnCounts(cur: Cursor, rest: string)
    requires rest != "" && cur.mode.InRaw? && TurnOf(cur, rest).n <= |rest|
    ensures var t := TurnOf(cur, rest);
            t.line + t.slips == cur.line + cur.slips + Newlines(rest[..t.n])
  {
    var t := TurnOf(cur, rest);
    if t.n == 1 {
      assert rest[..1] == [rest[0]];
      Newlines1(rest[0]);
    } else {
      LeadingHashesBound(rest[1..]);
      forall i | 0 <= i < t.n ensures rest[i] != '\n' {
        if i > 0 { assert rest[1..][i - 1] == rest[i]; }
      }
      NoNewlines(rest[..t.n]);
    }
  }

  /** The line counter and the missed newlines together count every newline passed. */
  lemma TurnCountsNewlines(cur: Cursor, rest: string)
    requires rest != "" && TurnOf(cur, rest).n <= |rest|
    ensures var t := TurnOf(cur, rest);
            t.line + t.slips == cur.line + cur.slips + Newlines(rest[..t.n])
  {
    if cur.mode.Code? {
      CodeTurnCounts(cur, rest);
    } else if cur.mode.InRaw? {
      RawTurnCounts(cur, rest);
    } else if TurnOf(cur, rest).n == 1 {
      assert rest[..1] == [rest[0]];
      Newlines1(rest[0]);
    } else {
      assert rest[..2] == [rest[0], rest[1]];
      Newlines2(rest[0], rest[1]);
    }
  }

  // ---------- every emitted comment is such a slice ----------

  ghost predicate Consistent(text: string, cur: Cursor) {
    && CursorAt(text, cur.pos, cur)
    && (cur.pos <= |text| ==> cur.line + cur.slips == 1 + Newlines(text[..cur.pos]))
    && (cur.pos > |text| ==> cur.mode.InString? || cur.mode.InChar?)
    && (cur.mode.InLine? ==> OpenComment(text, cur, "//") && '\n' !in cur.mode.open.text)
    && (cur.mode.InBlock? ==> OpenComment(text, cur, "/*"))
  }

  ghost predicate OpenComment(text: string, cur: Cursor, mark: string)
    requires cur.mode.InLine? || cur.mode.InBlock?
  {
    var f := cur.mode.open;
    mark <= f.text && Begun(text, f) && End(f) == cur.pos
  }

  ghost function From(cur: Cursor): nat {
    if cur.mode.InLine? || cur.mode.InBlock? then cur.mode.open.start else cur.pos
  }

  lemma GrowsBy(text: string, f: Found, s: string)
    requires Begun(text, f) && End(f) + |s| <= |text| && text[End(f)..End(f) + |s|] == s
    ensures Begun(text, Grow(f, s)) && End(Grow(f, s)) == End(f) + |s| && f.text <= Grow(f, s).text
  {
    assert text[f.start..End(f) + |s|] == text[f.start..End(f)] + text[End(f)..End(f) + |s|];
    var g := Grow(f, s);
    assert g.text[..2] == f.text[..2];
  }

  lemma OpensHere(text: string, cur: Cursor, mark: string)
    requires Consistent(text, cur) && cur.pos + 2 <= |text| && text[cur.pos..cur.pos + 2] == mark
    requires mark == "//" || mark == "/*"
    ensures Begun(text, Found(cur.pos, cur.line, cur.slips, mark))
  {
  }

  lemma TurnKeepsCount(text: string, cur: Cursor)
    requires Consistent(text, cur) && cur.pos < |text|
    ensures var rest := text[cur.pos..];
            var t := TurnOf(cur, rest);
            && CursorAt(text, cur.pos + t.n, After(cur, rest)) && t.n > 0
            && Drop(rest, t.n) == Drop(text, cur.pos + t.n)
            && (cur.pos + t.n > |text| ==> t.mode.InString? || t.mode.InChar?)
            && (cur.pos + t.n <= |text| ==> t.line + t.slips == 1 + Newlines(text[..cur.pos + t.n]))
  {
    hide TurnOf, Newlines, Begun;
    var rest := text[cur.pos..];
    var t := TurnOf(cur, rest);
    CursorMoves(text, cur.pos, cur);
    if cur.pos + t.n <= |text| {
      TurnCountsNewlines(cur, rest);
      NewlinesAppend(text[..cur.pos], rest[..t.n]);
      assert text[..cur.pos + t.n] == text[..cur.pos] + rest[..t.n];
    }
  }

  lemma CodeTurnOpens(text: string, cur: Cursor)
    requires Consistent(text, cur) && cur.pos < |text| && cur.mode.Code?
    ensures var rest := text[cur.pos..];
            var t := TurnOf(cur, rest);
            && t.out == []
            && (t.mode.InLine? ==> OpenComment(text, After(cur, rest), "//") && t.mode.open.text == "//")
            && (t.mode.InBlock? ==> OpenComment(text, After(cur, rest), "/*"))
            && (t.mode.InLine? || t.mode.InBlock? ==> t.mode.open.start == cur.pos)
  {
    var rest := text[cur.pos..];
    var t := TurnOf(cur, rest);
    if t.mode.InLine? || t.mode.InBlock? {
      assert text[cur.pos..cur.pos + 2] == [rest[0], rest[1]];
      OpensHere(text, cur, t.mode.open.text);
    }
  }

  lemma LineTurnGrows(text: string, cur: Cursor)
    requires Consistent(text, cur) && cur.pos < |text| && cur.mode.InLine?
    ensures var rest := text[cur.pos..];
            var t := TurnOf(cur, rest);
            && (t.mode.InLine? ==> OpenComment(text, After(cur, rest), "//") && '\n' !in t.mode.open.text)
            && (t.mode.InBlock? ==> OpenComment(text, After(cur, rest), "/*"))
            && (t.out == [] ==> (t.mode.InLine? || t.mode.InBlock?) && t.mode.open.start == cur.mode.open.start)
            && (t.out != [] ==> Emits(text, cur, t))
  {
    hide Newlines;
    var f, c := cur.mode.open, text[cur.pos];
    assert text[cur.pos..][0] == c;
    assert f.text[1] == '/';
    assert text[End(f)..End(f) + 1] == [c];
    GrowsBy(text, f, [c]);
  }

  lemma BlockTurnGrows(text: string, cur: Cursor)
    requires Consistent(text, cur) && cur.pos < |text| && cur.mode.InBlock?
    ensures var rest := text[cur.pos..];
            var t := TurnOf(cur, rest);
            && (t.mode.InLine? ==> OpenComment(text, After(cur, rest), "//") && '\n' !in t.mode.open.text)
            && (t.mode.InBlock? ==> OpenComment(text, After(cur, rest), "/*"))
            && (t.out == [] ==> (t.mode.InLine? || t.mode.InBlock?) && t.mode.open.start == cur.mode.open.start)
            && (t.out != [] ==> Emits(text, cur, t))
  {
    hide Newlines;
    var rest := text[cur.pos..];
    var t := TurnOf(cur, rest);
    var f := cur.mode.open;
    var s := rest[..t.n];
    assert f.text[1] == '*';
    assert text[End(f)..End(f) + t.n] == s;
    GrowsBy(text, f, s);
    assert s == if t.n == 1 then [rest[0]] else [rest[0], rest[1]];
    assert t.n == 2 ==> (f.text + s)[|f.text + s| - 2..] == s;
  }

  ghost predicate Emits(text: string, cur: Cursor, t: Turn) {
    && |t.out| == 1 && Whole(text, t.out[0]) && t.out[0].start >= From(cur)
    && End(t.out[0]) <= cur.pos + t.n && t.mode.Code?
  }

  /** One turn: the cursor stays consistent, and a comment it emits is whole. */
  lemma TurnIsSound(text: string, cur: Cursor)
    requires Consistent(text, cur) && cur.pos < |text|
    ensures var rest := text[cur.pos..];
            var t := TurnOf(cur, rest);
            && t.n > 0 && Consistent(text, After(cur, rest)) && Drop(rest, t.n) == Drop(text, cur.pos + t.n)
            && (if t.out == [] then From(cur) <= From(After(cur, rest)) else Emits(text, cur, t))
  {
    hide TurnOf, Begun, Whole;
    TurnKeepsCount(text, cur);
    if cur.mode.Code? {
      CodeTurnOpens(text, cur);
    } else if cur.mode.InLine? {
      LineTurnGrows(text, cur);
    } else if cur.mode.InBlock? {
      BlockTurnGrows(text, cur);
    } else {
      LiteralTurnStays(cur, text[cur.pos..]);
    }
  }

  lemma LiteralTurnStays(cur: Cursor, rest: string)
    requires rest != "" && (cur.mode.InRaw? || cur.mode.InString? || cur.mode.InChar?)
    ensures var t := TurnOf(cur, rest); t.out == [] && !t.mode.InLine? && !t.mode.InBlock?
  {
  }

  lemma ScanAtEnd(text: string, cur: Cursor)
    requires Consistent(text, cur) && cur.pos >= |text|
    ensures Slices(text, From(cur), Scan(cur, ""))
  {
    if cur.mode.InLine? {
      assert cur.mode.open.text[1] == '/';
    }
  }

  lemma {:induction false} ScanGivesSlices(text: string, cur: Cursor)
    requires Consistent(text, cur)
    ensures Slices(text, From(cur), Scan(cur, Drop(text, cur.pos)))
    decreases |text| + 1 - cur.pos
  {
    hide Scan, TurnOf, Slices, Consistent, Whole;
    if cur.pos < |text| {
      var rest := text[cur.pos..];
      var next, t := After(cur, rest), TurnOf(cur, rest);
      TurnIsSound(text, cur);
      ScanTurn(cur, rest);
      ConsistentBound(text, next);
      ScanGivesSlices(text, next);
      SlicesAfter(text, From(cur), From(next), t.out, Scan(next, Drop(text, next.pos)));
    } else {
      assert Drop(text, cur.pos) == "";
      ScanAtEnd(text, cur);
    }
  }

  lemma ConsistentBound(text: string, cur: Cursor)
    requires Consistent(text, cur)
    ensures cur.pos <= |text| + 1
  {
  }

  /** Putting at most one whole comment in front of later ones. */
  lemma SlicesAfter(text: string, lower: nat, from: nat, out: seq<Found>, later: seq<Found>)
    requires Slices(text, from, later) && |out| <= 1
    requires if out == [] then lower <= from else Whole(text, out[0]) && lower <= out[0].start && End(out[0]) <= from
    ensures Slices(text, lower, out + later)
  {
    if out == [] {
      assert out + later == later;
      SlicesFrom(text, from, lower, later);
    } else {
      assert (out + later)[0] == out[0] && (out + later)[1..] == later;
      SlicesFrom(text, from, End(out[0]), later);
    }
  }

  lemma SlicesFrom(text: string, from: nat, lower: nat, found: seq<Found>)
    requires Slices(text, from, found) && lower <= from
    ensures Slices(text, lower, found)
  {
  }

  lemma {:induction false} SlicesApart(text: string, from: nat, found: seq<Found>, i: nat, j: nat)
    requires Slices(text, from, found) && i < j < |found|
    ensures from <= found[i].start && Whole(text, found[i]) && Whole(text, found[j]) && End(found[i]) <= found[j].start
    decreases |found|
  {
    if i > 0 {
      SlicesApart(text, End(found[0]), found[1..], i - 1, j - 1);
    } else {
      SliceIsWhole(text, End(found[0]), found[1..], j - 1);
    }
  }

  lemma {:induction false} SliceIsWhole(text: string, from: nat, found: seq<Found>, i: nat)
    requires Slices(text, from, found) && i < |found|
    ensures Whole(text, found[i]) && from <= found[i].start
    decreases |found|
  {
    if i > 0 { SliceIsWhole(text, End(found[0]), found[1..], i - 1); }
  }

  // ---------- where comments open ----------

  /** The cursor after `k` turns. */
  function Turns(cur: Cursor, rest: string, k: nat): Cursor
    decreases k
  {
    if k == 0 || rest == "" then cur else Turns(After(cur, rest), Drop(rest, TurnOf(cur, rest).n), k - 1)
  }

  ghost predicate OpensInCode(cur: Cursor, rest: string, start: nat) {
    exists k: nat :: Turns(cur, rest, k).mode == Code && Turns(cur, rest, k).pos == start
  }

  predicate IsOpen(cur: Cursor, start: nat) {
    (cur.mode.InLine? || cur.mode.InBlock?) && cur.mode.open.start == start
  }

  /** A comment is open or emitted after a turn only if it was before, or opens here in code. */
  lemma TurnOpensInCode(cur: Cursor, rest: string, start: nat)
    requires rest != ""
    requires IsOpen(After(cur, rest), start) || exists f :: f in TurnOf(cur, rest).out && f.start == start
    ensures IsOpen(cur, start) || (cur.mode == Code && cur.pos == start)
  {
    hide SkipRawPrefix;
  }

  lemma LaterOpensInCode(cur: Cursor, rest: string, start: nat)
    requires rest != "" && OpensInCode(After(cur, rest), Drop(rest, TurnOf(cur, rest).n), start)
    ensures OpensInCode(cur, rest, start)
  {
    hide TurnOf;
    var left := Drop(rest, TurnOf(cur, rest).n);
    var k: nat :| Turns(After(cur, rest), left, k).mode == Code && Turns(After(cur, rest), left, k).pos == start;
    assert Turns(cur, rest, k + 1) == Turns(After(cur, rest), left, k);
  }

  lemma {:induction false} ScanOpensInCode(cur: Cursor, rest: string, i: nat)
    requires i < |Scan(cur, rest)|
    ensures var start := Scan(cur, rest)[i].start; IsOpen(cur, start) || OpensInCode(cur, rest, start)
    decreases |rest|
  {
    hide TurnOf, OpensInCode;
    if rest != "" {
      var t, left, f := TurnOf(cur, rest), Drop(rest, TurnOf(cur, rest).n), Scan(cur, rest)[i];
      ScanTurn(cur, rest);
      TurnAdvances(cur, rest);
      if i < |t.out| {
        assert f in t.out;
        OpensHereInCode(cur, rest, f.start);
      } else {
        ScanOpensInCode(After(cur, rest), left, i - |t.out|);
        if OpensInCode(After(cur, rest), left, f.start) {
          LaterOpensInCode(cur, rest, f.start);
        } else {
          OpensHereInCode(cur, rest, f.start);
        }
      }
    }
  }

  lemma TurnAdvances(cur: Cursor, rest: string)
    requires rest != ""
    ensures |Drop(rest, TurnOf(cur, rest).n)| < |rest|
  {
  }

  lemma OpensHereInCode(cur: Cursor, rest: string, start: nat)
    requires rest != ""
    requires IsOpen(After(cur, rest), start) || exists f :: f in TurnOf(cur, rest).out && f.start == start
    ensures IsOpen(cur, start) || OpensInCode(cur, rest, start)
  {
    TurnOpensInCode(cur, rest, start);
    if !IsOpen(cur, start) {
      assert Turns(cur, rest, 0) == cur;
    }
  }

  /** Every comment opens where the scanner stands in code, outside every literal and every
    * other comment. */
  lemma CommentsOpenInCode(text: string, i: nat)
    requires i < |Scan(START, text)|
    ensures OpensInCode(START, text, Scan(START, text)[i].start)
  {
    hide Scan;
    ScanOpensInCode(START, text, i);
  }

  // ---------- when a newline is missed ----------

  /** In a char literal, at a backslash with a newline behind it. */
  predicate EscapesNewline(text: string, cur: Cursor) {
    cur.mode.InChar? && cur.pos + 1 < |text| && text[cur.pos] == '\\' && text[cur.pos + 1] == '\n'
  }

  predicate EscapesBefore(text: string, cur: Cursor, start: nat) {
    cur.pos < start && EscapesNewline(text, cur)
  }

  /** Some turn from here on escapes a newline in a char literal, before `start`. */
  ghost predicate MissesBefore(text: string, cur: Cursor, start: nat) {
    exists k: nat :: EscapesBefore(text, Turns(cur, Drop(text, cur.pos), k), start)
  }

  /** The first comment found is the one open now; the others open later. */
  predicate IsOpenOne(cur: Cursor, i: nat) {
    (cur.mode.InLine? || cur.mode.InBlock?) && i == 0
  }

  /** An open comment keeps its place and its count; any other has missed what was missed
    * before, and more exactly if a turn from here on to its start misses a newline. */
  ghost predicate CountsMissed(text: string, cur: Cursor, i: nat, f: Found) {
    if IsOpenOne(cur, i) then f.start == cur.mode.open.start && f.slips == cur.mode.open.slips
    else f.start >= cur.pos && f.slips >= cur.slips && (f.slips > cur.slips <==> MissesBefore(text, cur, f.start))
  }

  /** The comment emitted is the open one, and none is open behind it. */
  predicate TurnEmits(cur: Cursor, next: Cursor, out: seq<Found>) {
    && |out| == 1 && IsOpenOne(cur, 0) && !IsOpenOne(next, 0)
    && out[0].start == cur.mode.open.start && out[0].slips == cur.mode.open.slips
  }

  /** An open comment stays open, and a new one opens here. */
  predicate TurnOpens(cur: Cursor, next: Cursor) {
    if IsOpenOne(cur, 0) then
      IsOpenOne(next, 0) && next.mode.open.start == cur.mode.open.start && next.mode.open.slips == cur.mode.open.slips
    else
      IsOpenOne(next, 0) ==> next.mode.open.start == cur.pos && next.mode.open.slips == cur.slips
  }

  lemma TurnMisses(text: string, cur: Cursor)
    requires cur.pos < |text|
    ensures var t := TurnOf(cur, Drop(text, cur.pos));
            t.n > 0 && t.slips == cur.slips + (if EscapesNewline(text, cur) then 1 else 0)
    ensures var rest := Drop(text, cur.pos); var t := TurnOf(cur, rest);
            if t.out != [] then TurnEmits(cur, After(cur, rest), t.out)
            else TurnOpens(cur, After(cur, rest))
  {
    hide SkipRawPrefix;
  }

  lemma {:induction false} TurnsGoOn(cur: Cursor, rest: string, k: nat)
    ensures Turns(cur, rest, k).pos >= cur.pos
    decreases k
  {
    hide TurnOf;
    if k > 0 && rest != "" { TurnsGoOn(After(cur, rest), Drop(rest, TurnOf(cur, rest).n), k - 1); }
  }

  lemma NothingBefore(text: string, cur: Cursor, start: nat)
    requires start <= cur.pos
    ensures !MissesBefore(text, cur, start)
  {
    hide Turns;
    forall k: nat ensures !EscapesBefore(text, Turns(cur, Drop(text, cur.pos), k), start) {
      TurnsGoOn(cur, Drop(text, cur.pos), k);
    }
  }

  /** A newline is missed by this turn or by a later one. */
  lemma MissesNowOrLater(text: string, cur: Cursor, start: nat)
    requires cur.pos < |text|
    ensures var rest := Drop(text, cur.pos);
            MissesBefore(text, cur, start) <==> EscapesBefore(text, cur, start) || MissesBefore(text, After(cur, rest), start)
  {
    hide TurnOf, EscapesBefore;
    var rest := Drop(text, cur.pos);
    var left := Drop(rest, TurnOf(cur, rest).n);
    var next := After(cur, rest);
    assert left == Drop(text, next.pos);
    if MissesBefore(text, cur, start) {
      var k: nat :| EscapesBefore(text, Turns(cur, rest, k), start);
      if k > 0 { assert Turns(cur, rest, k) == Turns(next, left, k - 1); }
    }
    if EscapesBefore(text, cur, start) { assert Turns(cur, rest, 0) == cur; }
    if MissesBefore(text, next, start) {
      var k: nat :| EscapesBefore(text, Turns(next, left, k), start);
      assert Turns(cur, rest, k + 1) == Turns(next, left, k);
    }
  }

  lemma {:induction false} ScanCountsMissed(text: string, cur: Cursor, i: nat)
    requires i < |Scan(cur, Drop(text, cur.pos))|
    ensures CountsMissed(text, cur, i, Scan(cur, Drop(text, cur.pos))[i])
    decreases |text| - cur.pos
  {
    hide TurnOf, MissesBefore, Scan;
    var rest := Drop(text, cur.pos);
    if cur.pos >= |text| {
      ScanOfNothing(cur);
    } else {
      var t, next := TurnOf(cur, rest), After(cur, rest);
      var f := Scan(cur, rest)[i];
      assert Drop(rest, t.n) == Drop(text, next.pos);
      ScanTurn(cur, rest);
      TurnMisses(text, cur);
      MissesNowOrLater(text, cur, f.start);
      if i >= |t.out| {
        ScanCountsMissed(text, next, i - |t.out|);
        if IsOpenOne(next, i - |t.out|) && !IsOpenOne(cur, i) { NothingBefore(text, cur, f.start); }
      }
    }
  }

  lemma ScanOfNothing(cur: Cursor)
    ensures Scan(cur, "") == if cur.mode.InLine? then [cur.mode.open] else []
  {
  }

  // ---------- the extractor on any text ----------

  /** Every text: what is extracted are whole comments of the text, in order, none
    * overlapping another, and each line number is one plus the newlines before the
    * comment exactly when no newline was escaped inside a char literal before it. */
  lemma ExtractedSlices(text: string)
    ensures var found := Scan(START, text);
            && (forall i :: 0 <= i < |found| ==> Whole(text, found[i]))
            && (forall i, j :: 0 <= i < j < |found| ==> End(found[i]) <= found[j].start)
            && (forall i :: 0 <= i < |found| ==>
                  (found[i].line == 1 + Newlines(text[..found[i].start]) <==> !MissesBefore(text, START, found[i].start)))
  {
    hide Scan, MissesBefore;
    assert text[..0] == "" && Drop(text, 0) == text;
    ScanGivesSlices(text, START);
    var found := Scan(START, text);
    forall i | 0 <= i < |found|
      ensures Whole(text, found[i])
      ensures found[i].line == 1 + Newlines(text[..found[i].start]) <==> !MissesBefore(text, START, found[i].start)
    {
      SliceIsWhole(text, 0, found, i);
      ScanCountsMissed(text, START, i);
    }
    forall i, j | 0 <= i < j < |found| ensures End(found[i]) <= found[j].start {
      SlicesApart(text, 0, found, i, j);
    }
  }

  /** In a text whose char literals escape no newline every line number is right, whatever
    * its strings and comments hold. */
  lemma LinesAreRight(text: string)
    requires forall k: nat :: !EscapesNewline(text, Turns(START, text, k))
    ensures var found := Scan(START, text);
            forall i :: 0 <= i < |found| ==>
              found[i].start <= |text| && found[i].line == 1 + Newlines(text[..found[i].start])
  {
    hide Scan, Turns;
    assert Drop(text, 0) == text;
    ExtractedSlices(text);
  }

  /** With one inside a char literal they are not: the comment below stands on line 2 and
    * is reported on line 1. */
  lemma EscapedNewlineInCharMiscounts()
    ensures Scan(START, "'\\\n'//") == [Found(4, 1, 1, "//")]
    ensures 1 + Newlines("'\\\n'//"[..4]) == 2
  {
    hide Scan;
    var text := "'\\\n'//";
    Unroll(START, text, Cursor('\'', 1, 1, 0, InChar), "\\\n'//");
    Unroll(Cursor('\'', 1, 1, 0, InChar), "\\\n'//", Cursor('\n', 3, 1, 1, InChar), "'//");
    Unroll(Cursor('\n', 3, 1, 1, InChar), "'//", Cursor('\'', 4, 1, 1, Code), "//");
    Unroll(Cursor('\'', 4, 1, 1, Code), "//", Cursor('/', 6, 1, 1, InLine(Found(4, 1, 1, "//"))), "");
    OpenLineAtEnd(Cursor('/', 6, 1, 1, InLine(Found(4, 1, 1, "//"))));
    hide TurnOf;
    assert text[..4] == ['\'', '\\'] + ['\n', '\''];
    NewlinesAppend(['\'', '\\'], ['\n', '\'']);
    Newlines2('\'', '\\');
    Newlines2('\n', '\'');
  }

  lemma OpenLineAtEnd(cur: Cursor)
    requires cur.mode.InLine?
    ensures Scan(cur, "") == [cur.mode.open]
  {
  }

  lemma Unroll(cur: Cursor, rest: string, next: Cursor, left: string)
    requires rest != "" && TurnOf(cur, rest).out == []
    requires After(cur, rest) == next && Drop(rest, TurnOf(cur, rest).n) == left
    ensures Scan(cur, rest) == Scan(next, left)
  {
    var later := Scan(next, left);
    assert Scan(cur, rest) == [] + later;
  }
}
