/** The comment extractor of `backend/src/authored_comments.rs`, as a
  * function on what is left of the text and as the program's loop. */
module RustComments {
  import opened Common
  import opened RustText

  function Newlines(s: string): nat {
    if s == "" then 0 else Newline(s[0]) + Newlines(s[1..])
  }

  function Newline(c: char): nat {
    if c == '\n' then 1 else 0
  }

  // ---------- the scanner as a function on what is left of the text ----------

  datatype Found = Found(start: nat, line: nat, slips: nat, text: string)

  /** What the text read last belongs to; an open comment remembers where it began. */
  datatype Mode =
    | Code
    | InLine(open: Found)
    | InBlock(depth: nat, open: Found)
    | InRaw(hashes: nat)
    | InString
    | InChar

  /** `prev` is the byte before, `line` the program's line counter, `slips` the number of
    * newlines that counter has missed. */
  datatype Cursor = Cursor(prev: char, pos: nat, line: nat, slips: nat, mode: Mode)

  /** One turn of the loop: how far it moves and what it leaves. */
  datatype Turn = Turn(n: nat, line: nat, slips: nat, mode: Mode, out: seq<Found>)

  /** A raw literal opening here: the index of its quote and its number of hashes. */
  function SkipRawPrefix(prev: char, rest: string): Option<(nat, nat)> {
    var j := if At(rest, 0) == 'b' || At(rest, 0) == 'c' then 1 else 0;
    if At(rest, j) != 'r' || IsIdent(prev) then None
    else
      var hashes := LeadingHashes(Drop(rest, j + 1));
      if At(rest, j + 1 + hashes) == '"' then Some((j + 1 + hashes, hashes)) else None
  }

  function Grow(open: Found, s: string): Found {
    open.(text := open.text + s)
  }

  function CodeTurn(cur: Cursor, rest: string): Turn
    requires rest != ""
  {
    var c, nxt := rest[0], At(rest, 1);
    var raw := SkipRawPrefix(cur.prev, rest);
    if raw.Some? then Turn(raw.value.0 + 1, cur.line, cur.slips, InRaw(raw.value.1), [])
    else if (c == 'b' || c == 'c') && nxt == '"' && !IsIdent(cur.prev) then Turn(2, cur.line, cur.slips, InString, [])
    else if c == '"' then Turn(1, cur.line, cur.slips, InString, [])
    else if c == '\'' then
      if nxt == '\\' || !IsIdent(nxt) then Turn(1, cur.line, cur.slips, InChar, [])
      else
        var ident := LeadingIdent(rest[1..]);
        if ident == 1 && At(rest, 2) == '\'' then Turn(1, cur.line, cur.slips, InChar, [])
        else Turn(1 + ident, cur.line, cur.slips, Code, [])
    else if c == '/' && nxt == '/' then
      Turn(2, cur.line, cur.slips, InLine(Found(cur.pos, cur.line, cur.slips, "//")), [])
    else if c == '/' && nxt == '*' then
      Turn(2, cur.line, cur.slips, InBlock(1, Found(cur.pos, cur.line, cur.slips, "/*")), [])
    else Turn(1, cur.line + Newline(c), cur.slips, Code, [])
  }

  function TurnOf(cur: Cursor, rest: string): Turn
    requires rest != ""
  {
    var c, nxt := rest[0], At(rest, 1);
    match cur.mode
    case InLine(open) =>
      if c == '\n' then Turn(1, cur.line + 1, cur.slips, Code, [open])
      else Turn(1, cur.line, cur.slips, InLine(Grow(open, [c])), [])
    case InBlock(depth, open) =>
      if c == '/' && nxt == '*' then Turn(2, cur.line, cur.slips, InBlock(depth + 1, Grow(open, "/*")), [])
      else if c == '*' && nxt == '/' then
        if depth <= 1 then Turn(2, cur.line, cur.slips, Code, [Grow(open, "*/")])
        else Turn(2, cur.line, cur.slips, InBlock(depth - 1, Grow(open, "*/")), [])
      else Turn(1, cur.line + Newline(c), cur.slips, InBlock(depth, Grow(open, [c])), [])
    case InRaw(need) =>
      var h := LeadingHashes(rest[1..]);
      if c == '"' && h >= need then Turn(1 + h, cur.line, cur.slips, Code, [])
      else Turn(1, cur.line + Newline(c), cur.slips, cur.mode, [])
    case InString =>
      if c == '\\' then Turn(2, cur.line + Newline(nxt), cur.slips, InString, [])
      else Turn(1, cur.line + Newline(c), cur.slips, if c == '"' then Code else InString, [])
    case InChar =>
      // an escaped newline is stepped over here without being counted
      if c == '\\' then Turn(2, cur.line, cur.slips + Newline(nxt), InChar, [])
      else Turn(1, cur.line + Newline(c), cur.slips, if c == '\'' then Code else InChar, [])
    case Code => CodeTurn(cur, rest)
  }

  function After(cur: Cursor, rest: string): Cursor
    requires rest != ""
  {
    var t := TurnOf(cur, rest);
    Cursor(if t.n == 0 then cur.prev else At(rest, t.n - 1), cur.pos + t.n, t.line, t.slips, t.mode)
  }

  /** All comments from here on; a line comment may be ended by the end of the text. */
  function Scan(cur: Cursor, rest: string): seq<Found>
    decreases |rest|
  {
    if rest == "" then (if cur.mode.InLine? then [cur.mode.open] else [])
    else
      var t := TurnOf(cur, rest);
      t.out + Scan(After(cur, rest), Drop(rest, t.n))
  }

  const START := Cursor('\0', 0, 1, 0, Code)

  function Lines(found: seq<Found>): seq<(nat, string)> {
    seq(|found|, i requires 0 <= i < |found| => (found[i].line, found[i].text))
  }

  // ---------- the program ----------

  lemma DropOfRest(bytes: string, i: nat, j: nat)
    requires i <= j <= |bytes|
    ensures Drop(bytes[i..], j - i) == bytes[j..]
  {
  }

  lemma NoIdent()
    ensures !IsIdent('\0')
  {
  }

  method SkipRawPrefixAt(bytes: string, i: nat) returns (r: Option<(nat, nat)>)
    requires i < |bytes|
    ensures var spec := SkipRawPrefix(if i > 0 then bytes[i - 1] else '\0', bytes[i..]);
            r == if spec.None? then None else Some((i + spec.value.0, spec.value.1))
  {
    hide LeadingHashes, Drop, IsIdent;
    var n := |bytes|;
    ghost var rest := bytes[i..];
    ghost var prev := if i > 0 then bytes[i - 1] else '\0';
    var j := i;
    if j < n && (bytes[j] == 'b' || bytes[j] == 'c') {
      j := j + 1;
    }
    if j >= n || bytes[j] != 'r' {
      return None;
    }
    if i > 0 && IsIdent(bytes[i - 1]) {
      return None;
    }
    j := j + 1;
    var hashes := CountHashes(bytes, j);
    DropOfRest(bytes, i, j);
    ghost var k: nat := j - i;
    assert !IsIdent(prev) by { if i == 0 { NoIdent(); } }
    assert k == (if At(rest, 0) == 'b' || At(rest, 0) == 'c' then 1 else 0) + 1 && At(rest, k - 1) == 'r';
    assert SkipRawPrefix(prev, rest) == if At(rest, k + hashes) == '"' then Some((k + hashes, hashes)) else None;
    j := j + hashes;
    assert At(rest, k + hashes) == At(bytes, j);
    if j < n && bytes[j] == '"' {
      r := Some((j, hashes));
    } else {
      r := None;
    }
  }

  /** The five flags of the program. */
  datatype Flags = Flags(inLine: bool, blockDepth: nat, inString: bool, inChar: bool, rawHashes: Option<nat>)

  const NO_FLAG := Flags(false, 0, false, false, None)

  /** The flags say the same as the mode: at most one of them is set. */
  predicate FlagsAre(mode: Mode, f: Flags) {
    match mode
    case Code => f == NO_FLAG
    case InLine(_) => f == NO_FLAG.(inLine := true)
    case InBlock(depth, _) => depth > 0 && f == NO_FLAG.(blockDepth := depth)
    case InRaw(hashes) => f == NO_FLAG.(rawHashes := Some(hashes))
    case InString => f == NO_FLAG.(inString := true)
    case InChar => f == NO_FLAG.(inChar := true)
  }

  /** An open comment is the slice from where it began to here. */
  ghost predicate OpenAt(bytes: string, i: nat, start: nat, line: nat, mode: Mode) {
    mode.InLine? || mode.InBlock? ==>
      start <= i <= |bytes| && mode.open.line == line && mode.open.text == bytes[start..i]
  }

  ghost predicate CursorAt(bytes: string, i: nat, cur: Cursor) {
    && cur.pos == i <= |bytes| + 1
    && (i <= |bytes| ==> cur.prev == if i > 0 then bytes[i - 1] else '\0')
  }

  /** A turn moves on, and past the end only from inside a string or a char. */
  lemma TurnStaysInside(cur: Cursor, rest: string)
    requires rest != ""
    ensures var t := TurnOf(cur, rest);
            && 0 < t.n <= |rest| + 1 && (t.n > |rest| ==> t.mode.InString? || t.mode.InChar?)
  {
    if cur.mode.Code? {
      LeadingIdentBound(rest[1..]);
      LeadingHashesBound(Drop(rest, 1));
      LeadingHashesBound(Drop(rest, 2));
    } else if cur.mode.InRaw? {
      LeadingHashesBound(rest[1..]);
    }
  }

  lemma CursorMoves(bytes: string, i: nat, cur: Cursor)
    requires CursorAt(bytes, i, cur) && i < |bytes|
    ensures var t := TurnOf(cur, bytes[i..]);
            && t.n > 0 && i + t.n <= |bytes| + 1
            && CursorAt(bytes, i + t.n, After(cur, bytes[i..]))
            && Drop(bytes[i..], t.n) == Drop(bytes, i + t.n)
            && (i + t.n > |bytes| ==> t.mode.InString? || t.mode.InChar?)
  {
    hide TurnOf;
    TurnStaysInside(cur, bytes[i..]);
  }

  /** The branches taken inside a comment. */
  method CommentBranch(bytes: string, i: nat, line: nat, flags: Flags, start: nat, startLine: nat, ghost cur: Cursor)
    returns (i': nat, line': nat, flags': Flags, emitted: seq<(nat, string)>)
    requires i < |bytes| && line == cur.line && FlagsAre(cur.mode, flags) && OpenAt(bytes, i, start, startLine, cur.mode)
    requires flags.inLine || flags.blockDepth > 0
    ensures var t := TurnOf(cur, bytes[i..]);
            && i' == i + t.n && line' == t.line && FlagsAre(t.mode, flags')
            && OpenAt(bytes, i', start, startLine, t.mode) && emitted == Lines(t.out)
  {
    var c := bytes[i];
    var nxt := if i + 1 < |bytes| then bytes[i + 1] else '\0';
    i', line', flags', emitted := i + 1, line, flags, [];
    assert bytes[start..i + 1] == bytes[start..i] + [c];
    if flags.inLine {
      if c == '\n' {
        emitted := [(startLine, bytes[start..i])];
        flags' := flags.(inLine := false);
        line' := line + 1;
      }
      return;
    }
    if c == '/' && nxt == '*' {
      assert bytes[start..i + 2] == bytes[start..i] + "/*";
      flags' := flags.(blockDepth := flags.blockDepth + 1);
      i' := i + 2;
      return;
    }
    if c == '*' && nxt == '/' {
      assert bytes[start..i + 2] == bytes[start..i] + "*/";
      flags' := flags.(blockDepth := flags.blockDepth - 1);
      if flags'.blockDepth == 0 {
        emitted := [(startLine, bytes[start..i + 2])];
      }
      i' := i + 2;
      return;
    }
    if c == '\n' {
      line' := line + 1;
    }
  }

  /** The branches taken inside a raw string, a string or a char. */
  method LiteralBranch(bytes: string, i: nat, line: nat, flags: Flags, ghost cur: Cursor)
    returns (i': nat, line': nat, flags': Flags)
    requires i < |bytes| && line == cur.line && FlagsAre(cur.mode, flags)
    requires flags.rawHashes.Some? || flags.inString || flags.inChar
    ensures var t := TurnOf(cur, bytes[i..]);
            i' == i + t.n && line' == t.line && FlagsAre(t.mode, flags') && t.out == []
            && !t.mode.InLine? && !t.mode.InBlock?
  {
    var c := bytes[i];
    var nxt := if i + 1 < |bytes| then bytes[i + 1] else '\0';
    i', line', flags' := i + 1, line, flags;
    if flags.rawHashes.Some? {
      if c == '\n' {
        line' := line + 1;
      }
      if c == '"' {
        var h := CountHashes(bytes, i + 1);
        assert bytes[i + 1..] == bytes[i..][1..];
        if h >= flags.rawHashes.value {
          flags' := flags.(rawHashes := None);
          i' := i + 1 + h;
        }
      }
      return;
    }
    if flags.inString {
      if c == '\\' {
        if nxt == '\n' {
          line' := line + 1;
        }
        i' := i + 2;
        return;
      }
      if c == '"' {
        flags' := flags.(inString := false);
      }
      if c == '\n' {
        line' := line + 1;
      }
      return;
    }
    if c == '\\' {
      i' := i + 2;
      return;
    }
    if c == '\'' {
      flags' := flags.(inChar := false);
    }
    if c == '\n' {
      line' := line + 1;
    }
  }

  /** The branches taken in code. */
  method CodeBranch(bytes: string, i: nat, line: nat, start: nat, startLine: nat, ghost cur: Cursor)
    returns (i': nat, line': nat, flags': Flags, start': nat, startLine': nat)
    requires i < |bytes| && line == cur.line && cur.mode == Code && CursorAt(bytes, i, cur)
    ensures var t := TurnOf(cur, bytes[i..]);
            && i' == i + t.n && line' == t.line && FlagsAre(t.mode, flags') && t.out == []
            && OpenAt(bytes, i', start', startLine', t.mode)
  {
    var n := |bytes|;
    var c := bytes[i];
    var nxt := if i + 1 < n then bytes[i + 1] else '\0';
    i', line', flags', start', startLine' := i + 1, line, NO_FLAG, start, startLine;
    var raw := SkipRawPrefixAt(bytes, i);
    if raw.Some? {
      flags' := flags'.(rawHashes := Some(raw.value.1));
      i' := raw.value.0 + 1;
      return;
    }
    if (c == 'b' || c == 'c') && nxt == '"' && (i == 0 || !IsIdent(bytes[i - 1])) {
      flags' := flags'.(inString := true);
      i' := i + 2;
      return;
    }
    if c == '"' {
      flags' := flags'.(inString := true);
      return;
    }
    if c == '\'' {
      if nxt == '\\' {
        flags' := flags'.(inChar := true);
        return;
      }
      if nxt != '\0' && IsIdent(nxt) {
        var ident := CountIdent(bytes, i + 1);
        assert bytes[i + 1..] == bytes[i..][1..];
        var j := i + 1 + ident;
        if j == i + 2 && j < n && bytes[j] == '\'' {
          flags' := flags'.(inChar := true);
          return;
        }
        i' := j;
        return;
      }
      flags' := flags'.(inChar := true);
      return;
    }
    if c == '/' && nxt == '/' {
      flags' := flags'.(inLine := true);
      start', startLine' := i, line;
      i' := i + 2;
      assert bytes[i..i + 2] == "//";
      return;
    }
    if c == '/' && nxt == '*' {
      flags' := flags'.(blockDepth := 1);
      start', startLine' := i, line;
      i' := i + 2;
      assert bytes[i..i + 2] == "/*";
      return;
    }
    if c == '\n' {
      line' := line + 1;
    }
  }

  ghost predicate Tracks(bytes: string, i: nat, line: nat, flags: Flags, start: nat, startLine: nat, cur: Cursor) {
    && CursorAt(bytes, i, cur) && line == cur.line && FlagsAre(cur.mode, flags)
    && (i > |bytes| ==> cur.mode.InString? || cur.mode.InChar?)
    && OpenAt(bytes, i, start, startLine, cur.mode)
  }

  lemma ScanTurn(cur: Cursor, rest: string)
    requires rest != ""
    ensures Scan(cur, rest) == TurnOf(cur, rest).out + Scan(After(cur, rest), Drop(rest, TurnOf(cur, rest).n))
  {
  }

  /** The body of the loop. */
  method Iterate(bytes: string, i: nat, line: nat, flags: Flags, start: nat, startLine: nat, ghost cur: Cursor)
    returns (i': nat, line': nat, flags': Flags, start': nat, startLine': nat, emitted: seq<(nat, string)>,
             ghost cur': Cursor, ghost found: seq<Found>)
    requires i < |bytes| && Tracks(bytes, i, line, flags, start, startLine, cur)
    ensures i < i' && Tracks(bytes, i', line', flags', start', startLine', cur')
    ensures emitted == Lines(found) && Scan(cur, Drop(bytes, i)) == found + Scan(cur', Drop(bytes, i'))
  {
    hide Scan, Newlines;
    CursorMoves(bytes, i, cur);
    ScanTurn(cur, Drop(bytes, i));
    cur', found := After(cur, bytes[i..]), TurnOf(cur, bytes[i..]).out;
    start', startLine', emitted := start, startLine, [];
    if flags.inLine || flags.blockDepth > 0 {
      i', line', flags', emitted := CommentBranch(bytes, i, line, flags, start, startLine, cur);
    } else if flags.rawHashes.Some? || flags.inString || flags.inChar {
      i', line', flags' := LiteralBranch(bytes, i, line, flags, cur);
    } else {
      i', line', flags', start', startLine' := CodeBranch(bytes, i, line, start, startLine, cur);
    }
  }

  method ExtractRsComments(bytes: string) returns (out: seq<(nat, string)>)
    ensures out == Lines(Scan(START, bytes))
  {
    out := [];
    var i, line := 0, 1;
    var flags := NO_FLAG;
    var commentStart: nat, commentStartLine: nat := 0, 1;
    ghost var cur, done: seq<Found> := START, [];
    while i < |bytes|
      invariant Tracks(bytes, i, line, flags, commentStart, commentStartLine, cur)
      invariant done + Scan(cur, Drop(bytes, i)) == Scan(START, bytes)
      invariant out == Lines(done)
      decreases |bytes| + 1 - i
    {
      var emitted;
      ghost var found;
      i, line, flags, commentStart, commentStartLine, emitted, cur, found :=
        Iterate(bytes, i, line, flags, commentStart, commentStartLine, cur);
      Assoc(done, found, Scan(cur, Drop(bytes, i)));
      LinesAppend(done, found);
      out, done := out + emitted, done + found;
    }
    LinesAppend(done, Scan(cur, ""));
    if flags.inLine {
      assert bytes[commentStart..] == bytes[commentStart..i];
      out := out + [(commentStartLine, bytes[commentStart..])];
    }
  }

  lemma Assoc<T>(a: seq<T>, b: seq<T>, c: seq<T>)
    ensures a + (b + c) == (a + b) + c
  {
  }

  lemma LinesAppend(a: seq<Found>, b: seq<Found>)
    ensures Lines(a + b) == Lines(a) + Lines(b)
  {
  }
}
