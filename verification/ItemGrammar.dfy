/** Rust items as `skip_item` reads them, as a grammar with a renderer: exactly when skipping
  * a rendered item leaves the text behind it, and what it leaves otherwise; and stripping a
  * source of such items leaves exactly its parts that are not annotated. */
module ItemGrammar {
  import opened Common
  import opened Letters
  import opened RustText
  import opened ItemSkipper

  datatype Part =
    | Ch(c: char)
    | LineComment(body: string)
    | BlockComment(body: string)
    | Str(units: seq<Unit>)
    | Raw(hashes: nat, body: string)
    | CharLit(c: char)
    | EscapedChar(c: char, more: string)
    | EscapedQuote                        // the char literal of a quote
    | WideChar(bytes: string)             // a char literal of several bytes
    | Tick                                // the quote of a lifetime
    | Group(parts: seq<Part>)             // a pair of braces

  // ---------- rendering ----------

  function RenderParts(parts: seq<Part>): string
    decreases parts
  {
    if parts == [] then "" else RenderPart(parts[0]) + RenderParts(parts[1..])
  }

  function RenderPart(p: Part): string
    decreases p
  {
    match p
    case Ch(c) => [c]
    case LineComment(body) => "//" + (body + "\n")
    case BlockComment(body) => "/*" + (body + "*/")
    case Str(units) => "\"" + (RenderUnits(units) + "\"")
    case Raw(hashes, body) => "r" + (Hashes(hashes) + ("\"" + (body + ("\"" + Hashes(hashes)))))
    case CharLit(c) => ['\'', c, '\'']
    case EscapedChar(c, more) => ['\'', '\\', c] + (more + "'")
    case EscapedQuote => "'\\'" + "'"
    case WideChar(bytes) => "'" + (bytes + "'")
    case Tick => "'"
    case Group(inner) => "{" + (RenderParts(inner) + "}")
  }

  // ---------- what the scanner reads as Rust does ----------

  /** A quote that the scanner passes over as it would a lifetime's. */
  predicate LoneQuote(after: string) {
    At(after, 0) != '\\' && At(after, 1) != '\''
  }

  predicate IsWide(bytes: string) {
    |bytes| >= 2 && forall i :: 0 <= i < |bytes| ==> bytes[i] >= 128 as char
  }

  /** A part as it stands between `prev` and `after`. */
  predicate PartOk(p: Part, prev: char, after: string)
    decreases p
  {
    match p
    case Ch(c) =>
      && c != '"' && c != '\'' && c != '{' && c != '}'
      && (c == '/' ==> At(after, 0) != '/' && At(after, 0) != '*')
      && (c == 'r' && !IsWordChar(prev) ==> At(after, LeadingHashes(after)) != '"')
    case LineComment(body) => '\n' !in body
    case BlockComment(body) => Find(body, "*/").None?
    case Str(units) => UnitsOk(units, '"')
    case Raw(hashes, body) => !IsWordChar(prev) && RawBodyOk(body, hashes)
    case CharLit(c) => c != '\\'
    case EscapedChar(c, more) => c != '\'' && '\'' !in more
    case EscapedQuote => LoneQuote(after)
    case WideChar(bytes) => IsWide(bytes) && LoneQuote(after)
    case Tick => LoneQuote(after)
    case Group(inner) => PartsOk(inner, '{', "}" + after)
  }

  predicate PartsOk(parts: seq<Part>, prev: char, after: string)
    decreases parts
  {
    parts != [] ==>
      && PartOk(parts[0], prev, RenderParts(parts[1..]) + after)
      && PartsOk(parts[1..], LastOf(prev, RenderPart(parts[0])), after)
  }

  function LastOf(prev: char, r: string): char {
    if r == "" then prev else r[|r| - 1]
  }

  // ---------- where an item ends ----------

  /** A part that ends an item when it stands outside braces. */
  predicate IsEnd(p: Part) {
    p == Ch(';') || p.Group?
  }

  predicate NoEnd(parts: seq<Part>) {
    forall i :: 0 <= i < |parts| ==> !IsEnd(parts[i])
  }

  /** What stands behind the first semicolon or pair of braces, if there is one. */
  function Behind(parts: seq<Part>): Option<seq<Part>> {
    if parts == [] then None
    else if IsEnd(parts[0]) then Some(parts[1..])
    else Behind(parts[1..])
  }

  /** The first semicolon or pair of braces of the item is its last part; an item without
    * one, a field or an arm, ends with the brace it stands in, or with the text. */
  predicate EndsItem(parts: seq<Part>, after: string) {
    var behind := Behind(parts);
    if behind.Some? then behind.value == [] else after == "" || after[0] == '}'
  }

  // ---------- scanning what was rendered ----------

  /** Skipping `r + after` comes to skipping `after` at the new depth. */
  ghost predicate Passes(prev: char, r: string, after: string, depth: nat, depth': nat) {
    Skip(prev, r + after, depth) == Skip(LastOf(prev, r), after, depth')
  }

  lemma OneTurn(prev: char, r: string, after: string, depth: nat, depth': nat)
    requires r != "" && TurnOf(prev, r + after, depth) == Advance(|r|, depth')
    ensures Passes(prev, r, after, depth, depth')
  {
    hide TurnOf;
    assert Drop(r + after, |r|) == after;
    assert At(r + after, |r| - 1) == LastOf(prev, r);
  }

  lemma Both(prev: char, a: string, b: string, after: string, d: nat, d': nat, d'': nat)
    requires Passes(prev, a, b + after, d, d') && Passes(LastOf(prev, a), b, after, d', d'')
    ensures Passes(prev, a + b, after, d, d'')
  {
    hide Skip;
    assert a + (b + after) == (a + b) + after;
    assert LastOf(LastOf(prev, a), b) == LastOf(prev, a + b);
  }

  lemma {:induction false} UntilOf(body: string, c: char, after: string)
    requires c !in body
    ensures Until(body + ([c] + after), c) == |body|
  {
    if body == "" {
      assert body + ([c] + after) == [c] + after;
    } else {
      assert (body + ([c] + after))[1..] == body[1..] + ([c] + after);
      UntilOf(body[1..], c, after);
    }
  }

  lemma LineCommentPasses(prev: char, body: string, after: string, depth: nat)
    requires '\n' !in body
    ensures Passes(prev, RenderPart(LineComment(body)), after, depth, depth)
  {
    hide Skip;
    var r := "//" + (body + "\n");
    UntilOf("//" + body, '\n', after);
    assert ("//" + body) + (['\n'] + after) == r + after;
    OneTurn(prev, r, after, depth, depth);
  }

  lemma {:induction false} FindAtEnd(body: string, after: string)
    requires Find(body, "*/").None?
    ensures Find(body + ("*/" + after), "*/") == Some(|body|)
  {
    var s := body + ("*/" + after);
    if body == "" {
      assert s == "*/" + after;
    } else {
      assert s[1..] == body[1..] + ("*/" + after);
      if |body| >= 2 {
        assert s[..2] == body[..2];
      } else {
        assert s[1] == '*';
      }
      FindTail(body);
      FindAtEnd(body[1..], after);
    }
  }

  lemma FindTail(body: string)
    requires body != "" && Find(body, "*/").None?
    ensures Find(body[1..], "*/").None?
  {
  }

  lemma BlockCommentPasses(prev: char, body: string, after: string, depth: nat)
    requires Find(body, "*/").None?
    ensures Passes(prev, RenderPart(BlockComment(body)), after, depth, depth)
  {
    hide Skip, Find;
    var r := "/*" + (body + "*/");
    assert Drop(r + after, 2) == body + ("*/" + after);
    FindAtEnd(body, after);
    OneTurn(prev, r, after, depth, depth);
  }

  lemma {:induction false} StringLengthOf(units: seq<Unit>, after: string)
    requires UnitsOk(units, '"')
    ensures StringLength(RenderUnits(units) + ("\"" + after)) == |RenderUnits(units)|
  {
    var s := RenderUnits(units) + ("\"" + after);
    if units == [] {
      assert s == "\"" + after;
    } else {
      var tail := RenderUnits(units[1..]) + ("\"" + after);
      StringLengthOf(units[1..], after);
      match units[0] {
        case Plain(c) => assert s[0] == c && s[1..] == tail;
        case Escaped(c) => assert s[0] == '\\' && Drop(s, 2) == tail;
      }
    }
  }

  lemma StrPasses(prev: char, units: seq<Unit>, after: string, depth: nat)
    requires UnitsOk(units, '"')
    ensures Passes(prev, RenderPart(Str(units)), after, depth, depth)
  {
    hide Skip;
    var r := "\"" + (RenderUnits(units) + "\"");
    StringLengthOf(units, after);
    assert (r + after)[1..] == RenderUnits(units) + ("\"" + after);
    OneTurn(prev, r, after, depth, depth);
  }

  lemma {:induction false} HashesInFront(s: string, n: nat)
    requires Hashes(n) <= s
    ensures LeadingHashes(s) >= n
  {
    if n > 0 {
      assert s[0] == Hashes(n)[0] == '#';
      assert Hashes(n)[1..] == Hashes(n - 1) <= s[1..];
      HashesInFront(s[1..], n - 1);
    }
  }

  lemma CloseInFront(s: string, n: nat)
    requires "\"" + Hashes(n) <= s
    ensures s[0] == '"' && LeadingHashes(s[1..]) >= n
  {
    var close := "\"" + Hashes(n);
    assert close[1..] == Hashes(n) && s[..|close|] == close;
    assert Hashes(n) <= s[1..] by {
      assert s[1..][..|close| - 1] == s[1..|close|];
    }
    HashesInFront(s[1..], n);
  }

  /** No quote of the body has enough hashes behind it to close the string. */
  lemma {:induction false} FindClose(body: string, n: nat, after: string)
    requires RawBodyOk(body, n)
    ensures Find(body + ("\"" + (Hashes(n) + after)), "\"" + Hashes(n)) == Some(|body|)
  {
    var close := "\"" + Hashes(n);
    var end := "\"" + (Hashes(n) + after);
    var s := body + end;
    if body == "" {
      assert s == close + after;
    } else {
      assert s[1..] == body[1..] + end && s[0] == body[0];
      FindClose(body[1..], n, after);
      BodyHashes(body[1..], Hashes(n) + after);
      if close <= s {
        CloseInFront(s, n);
      }
    }
  }

  lemma QuoteEndsHashes(after: string)
    ensures LeadingHashes("\"" + after) == 0
  {
  }

  lemma RawJumpOf(n: nat, body: string, after: string)
    requires RawBodyOk(body, n)
    ensures var r := RenderPart(Raw(n, body)); RawJump(r + after) == Some(|r|)
  {
    hide Find, RawBodyOk, LeadingHashes, Hashes;
    var r := RenderPart(Raw(n, body));
    var rest := r + after;
    var end := "\"" + (Hashes(n) + after);
    LeadingHashesOf(n, "\"" + (body + end));
    QuoteEndsHashes(body + end);
    assert rest[1..] == Hashes(n) + ("\"" + (body + end));
    assert Drop(rest, 2 + n) == body + end;
    assert At(rest, 1 + n) == '"';
    FindClose(body, n, after);
  }

  lemma RawPasses(prev: char, n: nat, body: string, after: string, depth: nat)
    requires !IsIdent(prev) && RawBodyOk(body, n)
    ensures Passes(prev, RenderPart(Raw(n, body)), after, depth, depth)
  {
    hide Skip, RawJump;
    var r := RenderPart(Raw(n, body));
    RawJumpOf(n, body, after);
    LeadingHashesOf(n, "");
    assert At(r + after, 1) == '"' || At(r + after, 1) == '#' by {
      if n > 0 { assert r[1] == Hashes(n)[0]; } else { assert Hashes(0) == ""; }
    }
    OneTurn(prev, r, after, depth, depth);
  }

  lemma EscapedCharPasses(prev: char, c: char, more: string, after: string, depth: nat)
    requires c != '\'' && '\'' !in more
    ensures Passes(prev, RenderPart(EscapedChar(c, more)), after, depth, depth)
  {
    hide Skip;
    var r := ['\'', '\\', c] + (more + "'");
    assert Drop(r + after, 2) == ([c] + more) + (['\''] + after);
    UntilOf([c] + more, '\'', after);
    OneTurn(prev, r, after, depth, depth);
  }

  lemma ChPasses(prev: char, c: char, after: string, depth: nat)
    requires PartOk(Ch(c), prev, after) && (c == ';' ==> depth > 0)
    ensures Passes(prev, [c], after, depth, depth)
  {
    hide Skip, Find, IsIdent, IsWordChar;
    IdentsAreWords(prev);
    assert ([c] + after)[1..] == after;
    LeadingHashesBound(after);
    assert At([c] + after, 1 + LeadingHashes(after)) == At(after, LeadingHashes(after));
    OneTurn(prev, [c], after, depth, depth);
  }

  lemma LoneQuotePasses(prev: char, after: string, depth: nat)
    requires LoneQuote(after)
    ensures Passes(prev, "'", after, depth, depth)
  {
    hide Skip;
    OneTurn(prev, "'", after, depth, depth);
  }

  /** The escaped quote is taken for the end of the literal. */
  lemma EscapeEndsEarly(prev: char, after: string, depth: nat)
    ensures Passes(prev, "'\\'", after, depth, depth)
  {
    hide Skip;
    var r := "'\\'";
    assert Drop(r + after, 2) == "'" + after;
    OneTurn(prev, r, after, depth, depth);
  }

  lemma EscapedQuotePasses(prev: char, after: string, depth: nat)
    requires LoneQuote(after)
    ensures Passes(prev, RenderPart(EscapedQuote), after, depth, depth)
  {
    hide Skip;
    EscapeEndsEarly(prev, "'" + after, depth);
    LoneQuotePasses('\'', after, depth);
    Both(prev, "'\\'", "'", after, depth, depth, depth);
  }

  lemma {:induction false} BytesPass(prev: char, bytes: string, after: string, depth: nat)
    requires forall i :: 0 <= i < |bytes| ==> bytes[i] >= 128 as char
    ensures Passes(prev, bytes, after, depth, depth)
    decreases |bytes|
  {
    hide Skip, TurnOf;
    if bytes == "" {
      assert bytes + after == after;
    } else {
      ByteTurn(prev, bytes[0], bytes[1..] + after, depth);
      OneTurn(prev, [bytes[0]], bytes[1..] + after, depth, depth);
      BytesPass(bytes[0], bytes[1..], after, depth);
      Both(prev, [bytes[0]], bytes[1..], after, depth, depth, depth);
      assert [bytes[0]] + bytes[1..] == bytes;
    }
  }

  lemma ByteTurn(prev: char, c: char, after: string, depth: nat)
    requires c >= 128 as char
    ensures TurnOf(prev, [c] + after, depth) == Advance(1, depth)
  {
  }

  /** The opening quote and the bytes of a char literal of several bytes. */
  lemma WideOpeningPasses(prev: char, bytes: string, after: string, depth: nat)
    requires IsWide(bytes)
    ensures Passes(prev, "'" + bytes, after, depth, depth)
  {
    hide Skip;
    assert At(bytes + after, 0) == bytes[0] && At(bytes + after, 1) == bytes[1];
    LoneQuotePasses(prev, bytes + after, depth);
    BytesPass('\'', bytes, after, depth);
    Both(prev, "'", bytes, after, depth, depth, depth);
  }

  lemma WideCharPasses(prev: char, bytes: string, after: string, depth: nat)
    requires IsWide(bytes) && LoneQuote(after)
    ensures Passes(prev, RenderPart(WideChar(bytes)), after, depth, depth)
  {
    hide Skip;
    WideOpeningPasses(prev, bytes, "'" + after, depth);
    LoneQuotePasses(LastOf(prev, "'" + bytes), after, depth);
    Both(prev, "'" + bytes, "'", after, depth, depth, depth);
    assert ("'" + bytes) + "'" == "'" + (bytes + "'");
  }

  lemma {:induction false} PartPasses(prev: char, p: Part, after: string, depth: nat)
    requires PartOk(p, prev, after) && (depth > 0 || !IsEnd(p))
    ensures Passes(prev, RenderPart(p), after, depth, depth)
    decreases p
  {
    hide Skip, IsIdent, IsWordChar;
    match p {
      case Ch(c) => ChPasses(prev, c, after, depth);
      case LineComment(body) => LineCommentPasses(prev, body, after, depth);
      case BlockComment(body) => BlockCommentPasses(prev, body, after, depth);
      case Str(units) => StrPasses(prev, units, after, depth);
      case Raw(hashes, body) =>
        IdentsAreWords(prev);
        RawPasses(prev, hashes, body, after, depth);
      case CharLit(c) => CharLitPasses(prev, c, after, depth);
      case EscapedChar(c, more) => EscapedCharPasses(prev, c, more, after, depth);
      case EscapedQuote => EscapedQuotePasses(prev, after, depth);
      case WideChar(bytes) => WideCharPasses(prev, bytes, after, depth);
      case Tick => LoneQuotePasses(prev, after, depth);
      case Group(inner) =>
        PartsPass('{', inner, "}" + after, depth + 1);
        GroupPasses(prev, RenderParts(inner), after, depth);
    }
  }

  lemma CharLitPasses(prev: char, c: char, after: string, depth: nat)
    requires c != '\\'
    ensures Passes(prev, ['\'', c, '\''], after, depth, depth)
  {
    hide Skip;
    OneTurn(prev, ['\'', c, '\''], after, depth, depth);
  }

  lemma GroupPasses(prev: char, body: string, after: string, depth: nat)
    requires depth > 0 && Passes('{', body, "}" + after, depth + 1, depth + 1)
    ensures Passes(prev, "{" + (body + "}"), after, depth, depth)
  {
    hide Skip;
    OneTurn(prev, "{", body + ("}" + after), depth, depth + 1);
    OneTurn(LastOf('{', body), "}", after, depth + 1, depth);
    Both('{', body, "}", after, depth + 1, depth + 1, depth);
    assert body + ("}" + after) == (body + "}") + after;
    Both(prev, "{", body + "}", after, depth, depth + 1, depth);
  }

  lemma {:induction false} PartsPass(prev: char, parts: seq<Part>, after: string, depth: nat)
    requires PartsOk(parts, prev, after) && (depth > 0 || NoEnd(parts))
    ensures Passes(prev, RenderParts(parts), after, depth, depth)
    decreases parts
  {
    hide Skip, TurnOf, PartOk;
    if parts == [] {
      assert "" + after == after;
    } else {
      var r, tail := RenderPart(parts[0]), RenderParts(parts[1..]);
      PartPasses(prev, parts[0], tail + after, depth);
      PartsPass(LastOf(prev, r), parts[1..], after, depth);
      Both(prev, r, tail, after, depth, depth, depth);
    }
  }

  // ---------- where the scanner stops ----------

  lemma StopsAt(prev: char, rest: string, depth: nat)
    requires rest != "" && TurnOf(prev, rest, depth).Stop?
    ensures Skip(prev, rest, depth) == Left(Drop(rest, TurnOf(prev, rest, depth).n))
  {
    hide TurnOf;
  }

  lemma SkipsBody(prev: char, body: seq<Part>, after: string)
    requires PartsOk(body, '{', "}" + after)
    ensures Skip(prev, RenderPart(Group(body)) + after, 0) == Left(after)
  {
    hide Skip, Jump;
    var b := RenderParts(body);
    OneTurn(prev, "{", b + ("}" + after), 0, 1);
    PartsPass('{', body, "}" + after, 1);
    StopsAt(LastOf('{', b), "}" + after, 1);
    assert "{" + (b + ("}" + after)) == RenderPart(Group(body)) + after;
    assert Drop("}" + after, 1) == after;
  }

  lemma SkipsSemicolon(prev: char, after: string)
    ensures Skip(prev, ";" + after, 0) == Left(after)
  {
    StopsAt(prev, ";" + after, 0);
    assert Drop(";" + after, 1) == after;
  }

  /** Outside braces the scanner returns all it is given only before a closing brace. */
  lemma StaysOnlyAtBrace(prev: char, after: string)
    ensures Skip(prev, after, 0) == Left(after) <==> after == "" || after[0] == '}'
  {
    hide Jump;
    if after != "" {
      var t := TurnOf(prev, after, 0);
      if t.Advance? { SkipGivesSuffix(At(after, t.n - 1), Drop(after, t.n), t.depth); }
    }
  }

  /** Any parts: the scanner leaves what stands behind the first semicolon or pair of braces
    * outside braces, and if there is none goes on behind the parts. */
  lemma {:induction false} SkipsToFirstEnd(prev: char, parts: seq<Part>, after: string)
    requires PartsOk(parts, prev, after)
    ensures var behind := Behind(parts);
            Skip(prev, RenderParts(parts) + after, 0)
            == if behind.Some? then Left(RenderParts(behind.value) + after)
               else Skip(LastOf(prev, RenderParts(parts)), after, 0)
    decreases |parts|
  {
    hide Skip, PartOk;
    if parts == [] {
      assert "" + after == after;
    } else {
      var r, tail := RenderPart(parts[0]), RenderParts(parts[1..]);
      assert (r + tail) + after == r + (tail + after);
      if parts[0].Group? {
        BodyOk(parts[0], prev, tail + after);
        SkipsBody(prev, parts[0].parts, tail + after);
      } else if parts[0] == Ch(';') {
        SkipsSemicolon(prev, tail + after);
      } else {
        PartPasses(prev, parts[0], tail + after, 0);
        SkipsToFirstEnd(LastOf(prev, r), parts[1..], after);
        assert LastOf(LastOf(prev, r), tail) == LastOf(prev, r + tail);
      }
    }
  }

  lemma BodyOk(p: Part, prev: char, after: string)
    requires p.Group? && PartOk(p, prev, after)
    ensures PartsOk(p.parts, '{', "}" + after)
  {
  }

  lemma RendersSome(parts: seq<Part>)
    ensures RenderParts(parts) == "" <==> parts == []
  {
  }

  /** Skipping leaves exactly what stands behind an item if and only if the item's first
    * semicolon or pair of braces outside braces is its last part, or it has none and the
    * text behind it is empty or begins with a closing brace. */
  lemma SkipsItem(parts: seq<Part>, after: string)
    requires PartsOk(parts, '\0', after)
    ensures Skip('\0', RenderParts(parts) + after, 0) == Left(after) <==> EndsItem(parts, after)
  {
    hide Skip, PartsOk, RenderParts;
    SkipsToFirstEnd('\0', parts, after);
    var behind := Behind(parts);
    if behind.Some? {
      RendersSome(behind.value);
    } else {
      StaysOnlyAtBrace(LastOf('\0', RenderParts(parts)), after);
    }
  }

  // ---------- whole sources ----------

  /** A source: text to keep and annotated items by turns, then the text at the end. */
  datatype Source = End(kept: string) | Marked(kept: string, item: seq<Part>, next: Source)

  function RenderSource(s: Source): string {
    match s
    case End(kept) => kept
    case Marked(kept, item, next) => kept + ("#[cfg(test)]" + (RenderParts(item) + RenderSource(next)))
  }

  function Kept(s: Source): string {
    match s
    case End(kept) => kept
    case Marked(kept, _, next) => kept + Kept(next)
  }

  predicate SourceOk(s: Source) {
    match s
    case End(kept) => Find(kept, "#[cfg(test)]").None?
    case Marked(kept, item, next) => 
      && Find(kept, "#[cfg(test)]").None? && PartsOk(item, '\0', RenderSource(next)) && EndsItem(item, RenderSource(next))
      && SourceOk(next)
  }

  /** The mark begins with its only `#`, so it cannot overlap itself. */
  lemma {:induction false} FindMark(kept: string, after: string)
    requires Find(kept, MARK).None?
    ensures Find(kept + (MARK + after), MARK) == Some(|kept|)
  {
    var s := kept + (MARK + after);
    if kept == "" {
      assert s == MARK + after;
    } else {
      assert s[1..] == kept[1..] + (MARK + after);
      if |kept| >= |MARK| {
        assert s[..|MARK|] == kept[..|MARK|];
      } else {
        assert s[|kept|] == '#' && MARK[|kept|] != '#';
      }
      MarkTail(kept);
      FindMark(kept[1..], after);
    }
  }

  lemma MarkTail(kept: string)
    requires kept != "" && Find(kept, MARK).None?
    ensures Find(kept[1..], MARK).None?
  {
  }

  /** Stripping leaves the rendering of everything that is not annotated. */
  lemma {:induction false} StripsSource(s: Source)
    requires SourceOk(s)
    ensures Strip(RenderSource(s)) == Left(Kept(s))
  {
    hide Skip, Find;
    match s {
      case End(kept) => StripNothing(kept);
      case Marked(kept, item, next) =>
        var after := RenderParts(item) + RenderSource(next);
        FindMark(kept, after);
        StripStep(RenderSource(s), |kept|);
        assert RenderSource(s)[|kept| + |MARK|..] == after;
        assert RenderSource(s)[..|kept|] == kept;
        SkipsItem(item, RenderSource(next));
        StripsSource(next);
    }
  }

  // ---------- read_literal ----------

  /** A rendered string is read back as written, with the text behind its quote. */
  lemma ReadsLiteral(units: seq<Unit>, after: string)
    requires UnitsOk(units, '"')
    ensures Literal(RenderUnits(units) + ("\"" + after)) == (RenderUnits(units), after)
  {
    StringLengthOf(units, after);
    var s := RenderUnits(units) + ("\"" + after);
    assert s[..|RenderUnits(units)|] == RenderUnits(units);
    assert Drop(s, |RenderUnits(units)| + 1) == after;
  }

  lemma CutAtQuote(s: string, n: nat)
    requires n < |s| && s[n] == '"'
    ensures s == s[..n] + ("\"" + s[n + 1..]) && Drop(s, n + 1) == s[n + 1..]
  {
  }

  /** Any text: the literal and the rest put back together are the text, with the closing
    * quote between them exactly when there is one. */
  lemma LiteralSplits(rest: string)
    ensures var (literal, after) := Literal(rest);
            if StringLength(rest) < |rest| then rest == literal + ("\"" + after)
            else literal == rest && after == ""
  {
    hide StringLength;
    StringStops(rest);
    var n := StringLength(rest);
    if n < |rest| {
      CutAtQuote(rest, n);
    } else if n == |rest| {
      assert rest[..n] == rest;
    }
  }

  lemma {:induction false} StringStops(s: string)
    ensures StringLength(s) <= |s| + 1
    ensures StringLength(s) < |s| ==> s[StringLength(s)] == '"'
    decreases |s|
  {
    if s != "" && s[0] != '"' {
      if s[0] == '\\' { StringStops(Drop(s, 2)); } else { StringStops(s[1..]); }
    }
  }

  lemma StringTurn(prev: char, rest: string, depth: nat)
    ensures TurnOf(prev, "\"" + rest, depth) == Advance(2 + StringLength(rest), depth)
  {
    hide StringLength;
    assert ("\"" + rest)[1..] == rest;
  }

  /** `skip_item` and `read_literal` agree on where a string ends. */
  lemma ScannersAgreeOnStrings(prev: char, rest: string, depth: nat)
    requires StringLength(rest) < |rest|
    ensures var (literal, after) := Literal(rest);
            Skip(prev, "\"" + rest, depth) == Skip('"', after, depth)
  {
    hide Skip, TurnOf, StringLength;
    var (literal, after) := Literal(rest);
    LiteralSplits(rest);
    StringTurn(prev, rest, depth);
    var r := "\"" + (literal + "\"");
    assert r + after == "\"" + rest;
    OneTurn(prev, r, after, depth, depth);
  }

  // ---------- how items are misread ----------

  lemma {:induction false} FirstEnd(before: seq<Part>, end: Part, behind: seq<Part>)
    requires NoEnd(before) && IsEnd(end)
    ensures Behind(before + ([end] + behind)) == Some(behind)
  {
    var parts := before + ([end] + behind);
    if before == [] {
      assert parts == [end] + behind && parts[1..] == behind;
    } else {
      assert parts[1..] == before[1..] + ([end] + behind);
      FirstEnd(before[1..], end, behind);
    }
  }

  /** The first semicolon outside braces ends the item wherever it stands, as in `[u8; 3]`:
    * all that is behind it stays in the text. */
  lemma SemicolonStopsEarly(before: seq<Part>, behind: seq<Part>, after: string)
    requires NoEnd(before) && PartsOk(before + ([Ch(';')] + behind), '\0', after)
    ensures Skip('\0', RenderParts(before + ([Ch(';')] + behind)) + after, 0) == Left(RenderParts(behind) + after)
  {
    FirstEnd(before, Ch(';'), behind);
    SkipsToFirstEnd('\0', before + ([Ch(';')] + behind), after);
  }

  /** The semicolon behind the braces of a `use` is left in the text. */
  lemma BracedUseLeavesSemicolon(before: seq<Part>, body: seq<Part>, after: string)
    requires NoEnd(before) && PartsOk(before + ([Group(body)] + [Ch(';')]), '\0', after)
    ensures Skip('\0', RenderParts(before + ([Group(body)] + [Ch(';')])) + after, 0) == Left(";" + after)
  {
    FirstEnd(before, Group(body), [Ch(';')]);
    SkipsToFirstEnd('\0', before + ([Group(body)] + [Ch(';')]), after);
    assert RenderParts([Ch(';')]) == ";";
  }

  /** A quote escaped in a char literal is taken for its end: scanning resumes at the quote
    * that really ends it, and takes that one for the start of a literal if another quote
    * stands two bytes behind it. */
  lemma EscapedQuoteResumesEarly(prev: char, after: string, depth: nat)
    ensures Skip(prev, RenderPart(EscapedQuote) + after, depth) == Skip('\'', "'" + after, depth)
    ensures At(after, 0) != '\\' && At(after, 1) == '\'' ==>
              Skip(prev, RenderPart(EscapedQuote) + after, depth) == Skip('\'', Drop(after, 2), depth)
  {
    hide Skip;
    assert RenderPart(EscapedQuote) + after == "'\\'" + ("'" + after);
    EscapeEndsEarly(prev, "'" + after, depth);
    if At(after, 0) != '\\' && At(after, 1) == '\'' {
      assert "'" + after == ['\'', after[0], '\''] + Drop(after, 2);
      CharLitPasses('\'', after[0], Drop(after, 2), depth);
    }
  }

  /** So it is with the quote that ends a char literal of several bytes: `c` and the quote
    * behind it are passed over, and what that quote opens is read as code. */
  lemma WideCharSwallowsQuote(prev: char, bytes: string, c: char, after: string, depth: nat)
    requires IsWide(bytes) && c != '\\'
    ensures Skip(prev, RenderPart(WideChar(bytes)) + ([c, '\''] + after), depth) == Skip('\'', after, depth)
  {
    hide Skip;
    var closing := ['\'', c, '\''] + after;
    assert RenderPart(WideChar(bytes)) + ([c, '\''] + after) == ("'" + bytes) + closing;
    WideOpeningPasses(prev, bytes, closing, depth);
    CharLitPasses(LastOf(prev, "'" + bytes), c, after, depth);
  }

  /** A brace in the next char literal then counts. */
  lemma BraceBehindWideCharCounts(prev: char, bytes: string, after: string, depth: nat)
    requires IsWide(bytes)
    ensures Skip(prev, RenderPart(WideChar(bytes)) + ([',', '\''] + ("{" + ("'" + after))), depth)
         == Skip('{', "'" + after, depth + 1)
  {
    hide Skip;
    WideCharSwallowsQuote(prev, bytes, ',', "{" + ("'" + after), depth);
    OneTurn('\'', "{", "'" + after, depth, depth + 1);
  }

  /** A byte raw string is read as an ordinary string: its backslashes escape. */
  lemma ByteRawStringIsAString(prev: char, rest: string, depth: nat)
    requires StringLength(rest) < |rest|
    ensures Skip(prev, "br\"" + rest, depth) == Skip('"', Literal(rest).1, depth)
  {
    hide Skip;
    assert "br\"" + rest == "b" + ("r\"" + rest) && "r\"" + rest == "r" + ("\"" + rest);
    OneTurn(prev, "b", "r\"" + rest, depth, depth);
    OneTurn('b', "r", "\"" + rest, depth, depth);
    ScannersAgreeOnStrings('r', rest, depth);
  }
}
