/** A grammar of Rust text, its renderer, and the theorem that the extractor returns
  * exactly the comments of whatever is rendered from it. */
module RustCommentGrammar {
  import opened Common
  import opened Letters
  import opened RustText
  import opened RustComments
  import opened RustCommentSlices

  /** The inside of a block comment: characters and nested block comments. */
  datatype Piece = Ch(c: char) | Nest(pieces: seq<Piece>)

  datatype Token =
    | CodeChar(c: char)
    | Lifetime(name: string)
    | CharLit(units: seq<Unit>)
    | Str(prefix: string, units: seq<Unit>)
    | RawStr(prefix: string, hashes: nat, body: string)
    | LineComment(body: string)
    | BlockComment(pieces: seq<Piece>)

  // ---------- rendering ----------

  function RenderPieces(pieces: seq<Piece>): string
    decreases pieces
  {
    if pieces == [] then "" else RenderPiece(pieces[0]) + RenderPieces(pieces[1..])
  }

  function RenderPiece(p: Piece): string
    decreases p
  {
    match p
    case Ch(c) => [c]
    case Nest(inner) => "/*" + RenderPieces(inner) + "*/"
  }

  function RenderToken(t: Token): string {
    match t
    case CodeChar(c) => [c]
    case Lifetime(name) => "'" + name
    case CharLit(units) => "'" + (RenderUnits(units) + "'")
    case Str(prefix, units) => prefix + ("\"" + (RenderUnits(units) + "\""))
    case RawStr(prefix, hashes, body) => prefix + ("r" + (Hashes(hashes) + ("\"" + (body + ("\"" + Hashes(hashes))))))
    case LineComment(body) => "//" + (body + "\n")
    case BlockComment(pieces) => "/*" + (RenderPieces(pieces) + "*/")
  }

  /** A text may end in a line comment without a newline. */
  datatype Tail = NoTail | OpenLine(body: string)

  function RenderTail(tail: Tail): string {
    match tail
    case NoTail => ""
    case OpenLine(body) => "//" + body
  }

  function Render(tokens: seq<Token>, tail: Tail): string {
    if tokens == [] then RenderTail(tail) else RenderToken(tokens[0]) + Render(tokens[1..], tail)
  }

  // ---------- what Rust asks of a text of tokens ----------

  /** Inside a block comment a character neither opens a nested one nor closes this one
    * together with the character after it; `next` is the character behind the pieces. */
  predicate PiecesOk(pieces: seq<Piece>, next: char)
    decreases pieces
  {
    pieces != [] ==> PieceOk(pieces[0], At(RenderPieces(pieces[1..]) + [next], 0)) && PiecesOk(pieces[1..], next)
  }

  predicate PieceOk(p: Piece, next: char)
    decreases p
  {
    match p
    case Ch(c) => !(c == '/' && next == '*') && !(c == '*' && next == '/')
    case Nest(inner) => PiecesOk(inner, '*')
  }

  /** The text begins like a raw string: an optional prefix, `r`, hashes and a quote. */
  ghost predicate OpensRaw(text: string) {
    exists prefix, n: nat :: RawOpening(prefix, n) <= text && (prefix == "" || prefix == "b" || prefix == "c")
  }

  ghost function RawOpening(prefix: string, n: nat): string {
    prefix + ("r" + (Hashes(n) + "\""))
  }

  /** Each token stands on its own, and is the token a Rust lexer would read where it
    * stands: `prev` is the character before it and `after` the text behind it. */
  ghost predicate TokenOk(t: Token, prev: char, after: string) {
    match t
    case CodeChar(c) =>
      && c != '"' && c != '\''
      && (c == '/' ==> At(after, 0) != '/' && At(after, 0) != '*')
      && (!IsWordChar(prev) ==> !OpensRaw([c] + after))
      && (!IsWordChar(prev) && (c == 'b' || c == 'c') ==> At(after, 0) != '"')
    case Lifetime(name) =>
      && name != "" && (forall i :: 0 <= i < |name| ==> IsWordChar(name[i]))
      && !IsWordChar(At(after, 0)) && (|name| == 1 ==> At(after, 0) != '\'')
    case CharLit(units) =>
      && UnitsOk(units, '\'') && Escaped('\n') !in units
      && (units != [] && units[0].Plain? && IsWordChar(units[0].c) ==> |units| == 1)
    case Str(prefix, units) =>
      && UnitsOk(units, '"')
      && (prefix == "" || ((prefix == "b" || prefix == "c") && !IsWordChar(prev)))
    case RawStr(prefix, hashes, body) =>
      && (prefix == "" || prefix == "b" || prefix == "c") && !IsWordChar(prev) && RawBodyOk(body, hashes)
    case LineComment(body) => '\n' !in body
    case BlockComment(pieces) => PiecesOk(pieces, '*')
  }

  function Last(t: Token, prev: char): char {
    var r := RenderToken(t);
    if r == "" then prev else r[|r| - 1]
  }

  ghost predicate TokensOk(tokens: seq<Token>, tail: Tail, prev: char) {
    if tokens == [] then tail.OpenLine? ==> '\n' !in tail.body
    else TokenOk(tokens[0], prev, Render(tokens[1..], tail)) && TokensOk(tokens[1..], tail, Last(tokens[0], prev))
  }

  /** The comments of a text, read off its tokens, with their places and lines. */
  function CommentsOf(tokens: seq<Token>, tail: Tail, pos: nat, line: nat): seq<Found> {
    if tokens == [] then
      if tail.OpenLine? then [Found(pos, line, 0, RenderTail(tail))] else []
    else
      var r := RenderToken(tokens[0]);
      CommentOf(tokens[0], pos, line) + CommentsOf(tokens[1..], tail, pos + |r|, line + Newlines(r))
  }

  function CommentOf(t: Token, pos: nat, line: nat): seq<Found> {
    match t
    case LineComment(body) => [Found(pos, line, 0, "//" + body)]
    case BlockComment(_) => [Found(pos, line, 0, RenderToken(t))]
    case _ => []
  }

  // ---------- scanning what was rendered ----------

  /** The cursor after the text `r`, now in `mode`. */
  function Moved(cur: Cursor, r: string, mode: Mode): Cursor {
    Cursor(if r == "" then cur.prev else r[|r| - 1], cur.pos + |r|, cur.line + Newlines(r), cur.slips, mode)
  }

  /** Scanning `r + after` comes to scanning `after` in `mode`, nothing emitted. */
  ghost predicate Passes(cur: Cursor, r: string, after: string, mode: Mode) {
    Scan(cur, r + after) == Scan(Moved(cur, r, mode), after)
  }

  lemma OneTurn(cur: Cursor, r: string, after: string, mode: Mode)
    requires r != ""
    requires TurnOf(cur, r + after) == Turn(|r|, cur.line + Newlines(r), cur.slips, mode, [])
    ensures Passes(cur, r, after, mode)
  {
    hide TurnOf, Scan;
    assert Drop(r + after, |r|) == after;
    assert At(r + after, |r| - 1) == r[|r| - 1];
    assert After(cur, r + after) == Moved(cur, r, mode);
    Unroll(cur, r + after, Moved(cur, r, mode), after);
  }

  lemma MovedTwice(cur: Cursor, a: string, b: string, mode: Mode, mode': Mode)
    ensures Moved(Moved(cur, a, mode), b, mode') == Moved(cur, a + b, mode')
  {
    NewlinesAppend(a, b);
    if b == "" { assert a + b == a; }
  }

  lemma Both(cur: Cursor, a: string, b: string, after: string, mode: Mode, mode': Mode)
    requires Passes(cur, a, b + after, mode) && Passes(Moved(cur, a, mode), b, after, mode')
    ensures Passes(cur, a + b, after, mode')
  {
    hide Scan;
    MovedTwice(cur, a, b, mode, mode');
    assert a + (b + after) == (a + b) + after;
  }

  lemma OneChar(cur: Cursor, c: char, after: string, mode: Mode)
    requires TurnOf(cur, [c] + after) == Turn(1, cur.line + Newline(c), cur.slips, mode, [])
    ensures Passes(cur, [c], after, mode)
  {
    Newlines1(c);
    OneTurn(cur, [c], after, mode);
  }

  lemma TwoChars(cur: Cursor, c: char, d: char, after: string, mode: Mode)
    requires TurnOf(cur, [c, d] + after) == Turn(2, cur.line + Newline(c) + Newline(d), cur.slips, mode, [])
    ensures Passes(cur, [c, d], after, mode)
  {
    Newlines2(c, d);
    OneTurn(cur, [c, d], after, mode);
  }

  // quoted literals

  lemma {:induction false} UnitsPass(cur: Cursor, units: seq<Unit>, after: string)
    requires cur.mode.InString? || (cur.mode.InChar? && Escaped('\n') !in units)
    requires UnitsOk(units, if cur.mode.InString? then '"' else '\'')
    ensures Passes(cur, RenderUnits(units), after, cur.mode)
    decreases |units|
  {
    var r := RenderUnits(units);
    if units == [] {
      assert r + after == after;
    } else {
      var tail := RenderUnits(units[1..]);
      match units[0] {
        case Plain(c) =>
          OneChar(cur, c, tail + after, cur.mode);
          UnitsPass(Moved(cur, [c], cur.mode), units[1..], after);
          Both(cur, [c], tail, after, cur.mode, cur.mode);
        case Escaped(c) =>
          assert units[0] in units;
          TwoChars(cur, '\\', c, tail + after, cur.mode);
          UnitsPass(Moved(cur, ['\\', c], cur.mode), units[1..], after);
          Both(cur, ['\\', c], tail, after, cur.mode, cur.mode);
      }
    }
  }

  /** The units of a literal and its closing quote. */
  lemma LiteralPasses(cur: Cursor, units: seq<Unit>, quote: char, after: string)
    requires (cur.mode.InString? && quote == '"') || (cur.mode.InChar? && quote == '\'' && Escaped('\n') !in units)
    requires UnitsOk(units, quote)
    ensures Passes(cur, RenderUnits(units) + [quote], after, Code)
  {
    var r := RenderUnits(units);
    UnitsPass(cur, units, [quote] + after);
    OneChar(Moved(cur, r, cur.mode), quote, after, Code);
    Both(cur, r, [quote], after, cur.mode, Code);
  }

  lemma StrPasses(cur: Cursor, prefix: string, units: seq<Unit>, after: string)
    requires cur.mode.Code? && TokenOk(Str(prefix, units), cur.prev, after)
    ensures Passes(cur, RenderToken(Str(prefix, units)), after, Code)
  {
    hide Scan, IsWordChar;
    IdentsAreWords(cur.prev);
    var body := RenderUnits(units) + "\"";
    if prefix == "" {
      OneChar(cur, '"', body + after, InString);
      LiteralPasses(Moved(cur, "\"", InString), units, '"', after);
      Both(cur, "\"", body, after, InString, Code);
      assert prefix + ("\"" + body) == "\"" + body;
    } else {
      var open := [prefix[0], '"'];
      TwoChars(cur, prefix[0], '"', body + after, InString);
      LiteralPasses(Moved(cur, open, InString), units, '"', after);
      Both(cur, open, body, after, InString, Code);
      assert prefix + ("\"" + body) == open + body;
    }
  }

  lemma CharLitPasses(cur: Cursor, units: seq<Unit>, after: string)
    requires cur.mode.Code? && TokenOk(CharLit(units), cur.prev, after)
    ensures Passes(cur, RenderToken(CharLit(units)), after, Code)
  {
    hide IsWordChar;
    if units != [] { IdentsAreWords(units[0].c); }
    var body := RenderUnits(units) + "'";
    var rest := ['\''] + (body + after);
    assert rest[1..] == body + after;
    if units != [] && units[0].Plain? && IsIdent(units[0].c) {
      assert units[1..] == [];
      assert RenderUnits(units) == [units[0].c] + RenderUnits(units[1..]);
      assert LeadingIdent((body + after)[1..]) == 0;
    }
    OneChar(cur, '\'', body + after, InChar);
    LiteralPasses(Moved(cur, "'", InChar), units, '\'', after);
    Both(cur, "'", body, after, InChar, Code);
  }

  lemma {:induction false} LeadingIdentOf(name: string, after: string)
    requires (forall i :: 0 <= i < |name| ==> IsIdent(name[i])) && !IsIdent(At(after, 0))
    ensures LeadingIdent(name + after) == |name|
  {
    if name == "" {
      assert name + after == after;
    } else {
      assert (name + after)[1..] == name[1..] + after;
      LeadingIdentOf(name[1..], after);
    }
  }

  lemma LifetimePasses(cur: Cursor, name: string, after: string)
    requires cur.mode.Code? && TokenOk(Lifetime(name), cur.prev, after)
    ensures Passes(cur, RenderToken(Lifetime(name)), after, Code)
  {
    hide IsWordChar;
    IdentsAreWords(At(after, 0));
    forall i | 0 <= i < |name| ensures IsIdent(name[i]) {
      IdentsAreWords(name[i]);
    }
    var r := "'" + name;
    assert (r + after)[1..] == name + after;
    LeadingIdentOf(name, after);
    forall i | 0 <= i < |r| ensures r[i] != '\n' {
      if i > 0 { assert r[i] == name[i - 1]; }
    }
    NoNewlines(r);
    OneTurn(cur, r, after, Code);
  }

  // raw strings

  lemma {:induction false} NoNewlineInHashes(n: nat)
    ensures Newlines(Hashes(n)) == 0
  {
    if n > 0 {
      NoNewlineInHashes(n - 1);
      assert Hashes(n)[1..] == Hashes(n - 1);
    }
  }

  /** The opening of a raw string is what `SkipRawPrefix` looks for. */
  lemma RawOpeningFound(prev: char, prefix: string, n: nat, after: string)
    requires !IsIdent(prev) && (prefix == "" || prefix == "b" || prefix == "c")
    ensures var open := RawOpening(prefix, n);
            SkipRawPrefix(prev, open + after) == Some((|open| - 1, n)) && Newlines(open) == 0
  {
    var open := RawOpening(prefix, n);
    var rest := open + after;
    var j := |prefix|;
    LeadingHashesOf(n, "\"" + after);
    assert LeadingHashes("\"" + after) == 0;
    assert Drop(rest, j + 1) == Hashes(n) + ("\"" + after);
    assert rest[j + 1 + n] == '"';
    OpeningNewlines(prefix, n);
  }

  lemma OpeningNewlines(prefix: string, n: nat)
    requires prefix == "" || prefix == "b" || prefix == "c"
    ensures Newlines(RawOpening(prefix, n)) == 0
  {
    NoNewlineInHashes(n);
    NewlinesAppend(prefix, "r" + (Hashes(n) + "\""));
    NewlinesAppend("r", Hashes(n) + "\"");
    NewlinesAppend(Hashes(n), "\"");
    Newlines1('"');
    Newlines1('r');
    Newlines1('b');
    Newlines1('c');
  }

  lemma {:induction false} HashesPrefix(s: string)
    ensures Hashes(LeadingHashes(s)) <= s
  {
    if s != "" && s[0] == '#' {
      HashesPrefix(s[1..]);
    }
  }

  lemma HashesThenQuote(tail: string)
    requires At(tail, LeadingHashes(tail)) == '"'
    ensures Hashes(LeadingHashes(tail)) + "\"" <= tail
  {
    var n := LeadingHashes(tail);
    LeadingHashesBound(tail);
    HashesPrefix(tail);
    LeadingHashesOf(n, "");
    hide LeadingHashes, Hashes;
    assert tail[..n + 1] == tail[..n] + [tail[n]];
  }

  lemma OpeningPrefix(prefix: string, n: nat, tail: string)
    requires Hashes(n) + "\"" <= tail
    ensures RawOpening(prefix, n) <= prefix + ("r" + tail)
  {
    hide Hashes;
    var open := Hashes(n) + "\"";
    var after := tail[|open|..];
    assert tail == open + after;
    assert "r" + (open + after) == ("r" + open) + after;
    assert prefix + (("r" + open) + after) == (prefix + ("r" + open)) + after;
  }

  lemma SplitsOffPrefix(rest: string, j: nat)
    requires j <= 1 && At(rest, j) == 'r'
    ensures rest == (if j == 0 then "" else [rest[0]]) + ("r" + Drop(rest, j + 1))
  {
  }

  lemma OpensWith(prefix: string, n: nat, rest: string)
    requires RawOpening(prefix, n) <= rest && (prefix == "" || prefix == "b" || prefix == "c")
    ensures OpensRaw(rest)
  {
    hide RawOpening;
  }

  /** A prefix is recognized only where the text opens a raw string. */
  lemma RawPrefixOpens(prev: char, rest: string)
    requires SkipRawPrefix(prev, rest).Some?
    ensures OpensRaw(rest)
  {
    hide LeadingHashes, Hashes, IsIdent, OpensRaw, RawOpening;
    var j := if At(rest, 0) == 'b' || At(rest, 0) == 'c' then 1 else 0;
    var prefix := if j == 0 then "" else [rest[0]];
    var tail := Drop(rest, j + 1);
    SplitsOffPrefix(rest, j);
    HashesThenQuote(tail);
    OpeningPrefix(prefix, LeadingHashes(tail), tail);
    OpensWith(prefix, LeadingHashes(tail), rest);
  }

  lemma {:induction false} RawBodyPasses(cur: Cursor, body: string, after: string)
    requires cur.mode.InRaw? && RawBodyOk(body, cur.mode.hashes)
    ensures Passes(cur, body, "\"" + after, cur.mode)
    decreases |body|
  {
    var quote := "\"" + after;
    if body == "" {
      assert body + quote == quote;
    } else {
      assert ([body[0]] + (body[1..] + quote))[1..] == body[1..] + quote;
      BodyHashes(body[1..], after);
      OneChar(cur, body[0], body[1..] + quote, cur.mode);
      RawBodyPasses(Moved(cur, [body[0]], cur.mode), body[1..], after);
      Both(cur, [body[0]], body[1..], quote, cur.mode, cur.mode);
      assert [body[0]] + body[1..] == body;
    }
  }

  /** Hashes in code are passed one by one. */
  lemma {:induction false} HashesPass(cur: Cursor, n: nat, after: string)
    requires cur.mode.Code?
    ensures Passes(cur, Hashes(n), after, Code)
    decreases n
  {
    hide Scan;
    if n == 0 {
      assert Hashes(n) + after == after;
      assert Moved(cur, "", Code) == cur;
    } else {
      OneChar(cur, '#', Hashes(n - 1) + after, Code);
      HashesPass(Moved(cur, "#", Code), n - 1, after);
      Both(cur, "#", Hashes(n - 1), after, Code, Code);
    }
  }

  lemma CloseText(n: nat)
    ensures Newlines("\"" + Hashes(n)) == 0 && |Hashes(n)| == n
  {
    LeadingHashesOf(n, "");
    NoNewlineInHashes(n);
    NewlinesAppend("\"", Hashes(n));
    Newlines1('"');
  }

  lemma {:induction false} HashesAdd(n: nat, k: nat)
    ensures Hashes(n) + Hashes(k) == Hashes(n + k)
  {
    if n == 0 {
      assert Hashes(0) + Hashes(k) == Hashes(k);
    } else {
      HashesAdd(n - 1, k);
      assert Hashes(n) + Hashes(k) == "#" + (Hashes(n - 1) + Hashes(k));
    }
  }

  /** A closing quote takes with it every hash that follows. */
  lemma RawClosingTurn(cur: Cursor, m: nat, later: string)
    requires cur.mode.InRaw? && cur.mode.hashes <= m && LeadingHashes(later) == 0
    ensures Passes(cur, "\"" + Hashes(m), later, Code)
  {
    hide Scan;
    var close := "\"" + Hashes(m);
    CloseText(m);
    LeadingHashesOf(m, later);
    assert (close + later)[1..] == Hashes(m) + later;
    OneTurn(cur, close, later, Code);
  }

  /** The closing of a raw string; the program also steps over hashes that follow it. */
  lemma RawClosingPasses(cur: Cursor, n: nat, after: string)
    requires cur.mode == InRaw(n)
    ensures Passes(cur, "\"" + Hashes(n), after, Code)
  {
    hide Scan, TurnOf;
    var close := "\"" + Hashes(n);
    var k := LeadingHashes(after);
    var later := Drop(after, k);
    LeadingHashesBound(after);
    HashesPrefix(after);
    LeadingHashesOf(k, later);
    assert after == Hashes(k) + later;
    HashesAdd(n, k);
    RawClosingTurn(cur, n + k, later);
    HashesPass(Moved(cur, close, Code), k, later);
    MovedTwice(cur, close, Hashes(k), Code, Code);
    assert close + Hashes(k) == "\"" + Hashes(n + k);
    assert close + (Hashes(k) + later) == ("\"" + Hashes(n + k)) + later;
  }

  lemma RawOpeningPasses(cur: Cursor, prefix: string, n: nat, after: string)
    requires cur.mode.Code? && !IsIdent(cur.prev) && (prefix == "" || prefix == "b" || prefix == "c")
    ensures Passes(cur, RawOpening(prefix, n), after, InRaw(n))
  {
    hide Scan;
    RawOpeningFound(cur.prev, prefix, n, after);
    OneTurn(cur, RawOpening(prefix, n), after, InRaw(n));
  }

  lemma RawStrPasses(cur: Cursor, prefix: string, n: nat, body: string, after: string)
    requires cur.mode.Code? && TokenOk(RawStr(prefix, n, body), cur.prev, after)
    ensures Passes(cur, RenderToken(RawStr(prefix, n, body)), after, Code)
  {
    hide Scan, TurnOf, IsWordChar;
    IdentsAreWords(cur.prev);
    var open, close := RawOpening(prefix, n), "\"" + Hashes(n);
    RawOpeningPasses(cur, prefix, n, (body + close) + after);
    var c1 := Moved(cur, open, InRaw(n));
    assert "\"" + (Hashes(n) + after) == close + after;
    RawBodyPasses(c1, body, Hashes(n) + after);
    RawClosingPasses(Moved(c1, body, InRaw(n)), n, after);
    Both(c1, body, close, after, InRaw(n), Code);
    Both(cur, open, body + close, after, InRaw(n), Code);
    RawRendering(prefix, n, body);
  }

  lemma RawRendering(prefix: string, n: nat, body: string)
    ensures RenderToken(RawStr(prefix, n, body)) == RawOpening(prefix, n) + (body + ("\"" + Hashes(n)))
  {
    var close := body + ("\"" + Hashes(n));
    assert Hashes(n) + ("\"" + close) == (Hashes(n) + "\"") + close;
    assert "r" + ((Hashes(n) + "\"") + close) == ("r" + (Hashes(n) + "\"")) + close;
    assert prefix + (("r" + (Hashes(n) + "\"")) + close) == RawOpening(prefix, n) + close;
  }

  // comments

  lemma {:induction false} LineBodyPasses(cur: Cursor, body: string, after: string)
    requires cur.mode.InLine? && '\n' !in body
    ensures Passes(cur, body, after, InLine(Grow(cur.mode.open, body)))
    decreases |body|
  {
    var open := cur.mode.open;
    if body == "" {
      assert body + after == after && open.text + "" == open.text;
    } else {
      var mode := InLine(Grow(open, [body[0]]));
      OneChar(cur, body[0], body[1..] + after, mode);
      LineBodyPasses(Moved(cur, [body[0]], mode), body[1..], after);
      Both(cur, [body[0]], body[1..], after, mode, InLine(Grow(mode.open, body[1..])));
      assert [body[0]] + body[1..] == body;
      assert (open.text + [body[0]]) + body[1..] == open.text + body;
    }
  }

  lemma LineOpenPasses(cur: Cursor, body: string, after: string)
    requires cur.mode.Code? && '\n' !in body
    ensures Passes(cur, "//" + body, after, InLine(Found(cur.pos, cur.line, cur.slips, "//" + body)))
  {
    hide Scan;
    var open := InLine(Found(cur.pos, cur.line, cur.slips, "//"));
    TwoChars(cur, '/', '/', body + after, open);
    LineBodyPasses(Moved(cur, "//", open), body, after);
    Both(cur, "//", body, after, open, InLine(Grow(open.open, body)));
  }

  lemma LineAtEnd(cur: Cursor, body: string)
    requires cur.mode.Code? && '\n' !in body
    ensures Scan(cur, "//" + body) == [Found(cur.pos, cur.line, cur.slips, "//" + body)]
  {
    LineOpenPasses(cur, body, "");
    assert ("//" + body) + "" == "//" + body;
    assert Scan(Moved(cur, "//" + body, InLine(Found(cur.pos, cur.line, cur.slips, "//" + body))), "")
        == [Found(cur.pos, cur.line, cur.slips, "//" + body)];
  }

  /** A turn that ends a comment. */
  lemma EmitTurn(cur: Cursor, r: string, after: string, found: Found)
    requires r != "" && TurnOf(cur, r + after) == Turn(|r|, cur.line + Newlines(r), cur.slips, Code, [found])
    ensures Scan(cur, r + after) == [found] + Scan(Moved(cur, r, Code), after)
  {
    assert Drop(r + after, |r|) == after;
    assert After(cur, r + after) == Moved(cur, r, Code);
  }

  lemma LineCommentScans(cur: Cursor, body: string, after: string)
    requires cur.mode.Code? && '\n' !in body
    ensures Scan(cur, RenderToken(LineComment(body)) + after)
         == [Found(cur.pos, cur.line, cur.slips, "//" + body)] + Scan(Moved(cur, RenderToken(LineComment(body)), Code), after)
  {
    hide Scan;
    var found := Found(cur.pos, cur.line, cur.slips, "//" + body);
    LineOpenPasses(cur, body, "\n" + after);
    Newlines1('\n');
    EmitTurn(Moved(cur, "//" + body, InLine(found)), "\n", after, found);
    MovedTwice(cur, "//" + body, "\n", InLine(found), Code);
    assert ("//" + body) + "\n" == "//" + (body + "\n");
    assert ("//" + body) + ("\n" + after) == ("//" + (body + "\n")) + after;
  }

  lemma {:induction false} PiecesPass(cur: Cursor, pieces: seq<Piece>, after: string)
    requires cur.mode.InBlock? && cur.mode.depth > 0 && after != "" && PiecesOk(pieces, after[0])
    ensures Passes(cur, RenderPieces(pieces), after, InBlock(cur.mode.depth, Grow(cur.mode.open, RenderPieces(pieces))))
    decreases pieces
  {
    hide Scan;
    var d, open := cur.mode.depth, cur.mode.open;
    if pieces == [] {
      assert "" + after == after && open.text + "" == open.text;
    } else {
      var r, tail := RenderPiece(pieces[0]), RenderPieces(pieces[1..]);
      assert At(tail + [after[0]], 0) == (tail + after)[0];
      PiecePasses(cur, pieces[0], tail + after);
      var mode := InBlock(d, Grow(open, r));
      PiecesPass(Moved(cur, r, mode), pieces[1..], after);
      assert (open.text + r) + tail == open.text + (r + tail);
      Both(cur, r, tail, after, mode, InBlock(d, Grow(open, r + tail)));
    }
  }

  lemma {:induction false} PiecePasses(cur: Cursor, p: Piece, after: string)
    requires cur.mode.InBlock? && cur.mode.depth > 0 && after != "" && PieceOk(p, after[0])
    ensures Passes(cur, RenderPiece(p), after, InBlock(cur.mode.depth, Grow(cur.mode.open, RenderPiece(p))))
    decreases p
  {
    hide Scan, Passes;
    var d, open := cur.mode.depth, cur.mode.open;
    match p {
      case Ch(c) => OneChar(cur, c, after, InBlock(d, Grow(open, [c])));
      case Nest(inner) =>
        var body := RenderPieces(inner);
        NestOpens(cur, body + ("*/" + after));
        PiecesPass(Moved(cur, "/*", InBlock(d + 1, Grow(open, "/*"))), inner, "*/" + after);
        NestFills(cur, body, "*/" + after);
        NestCloses(cur, body, after);
        assert RenderPiece(p) == "/*" + (body + "*/");
    }
  }

  lemma NestOpens(cur: Cursor, after: string)
    requires cur.mode.InBlock? && cur.mode.depth > 0
    ensures Passes(cur, "/*", after, InBlock(cur.mode.depth + 1, Grow(cur.mode.open, "/*")))
  {
    hide Scan, Passes;
    TwoChars(cur, '/', '*', after, InBlock(cur.mode.depth + 1, Grow(cur.mode.open, "/*")));
  }

  lemma NestFills(cur: Cursor, body: string, after: string)
    requires cur.mode.InBlock? && Passes(cur, "/*", body + after, InBlock(cur.mode.depth + 1, Grow(cur.mode.open, "/*")))
    requires var entered := InBlock(cur.mode.depth + 1, Grow(cur.mode.open, "/*"));
             Passes(Moved(cur, "/*", entered), body, after, InBlock(cur.mode.depth + 1, Grow(entered.open, body)))
    ensures Passes(cur, "/*" + body, after, InBlock(cur.mode.depth + 1, Grow(cur.mode.open, "/*" + body)))
  {
    hide Scan, Passes;
    var open := cur.mode.open;
    assert (open.text + "/*") + body == open.text + ("/*" + body);
    Both(cur, "/*", body, after, InBlock(cur.mode.depth + 1, Grow(open, "/*")), InBlock(cur.mode.depth + 1, Grow(open, "/*" + body)));
  }

  lemma NestCloses(cur: Cursor, body: string, after: string)
    requires cur.mode.InBlock? && cur.mode.depth > 0
    requires Passes(cur, "/*" + body, "*/" + after, InBlock(cur.mode.depth + 1, Grow(cur.mode.open, "/*" + body)))
    ensures var r := "/*" + (body + "*/");
            Passes(cur, r, after, InBlock(cur.mode.depth, Grow(cur.mode.open, r)))
  {
    hide Scan, Passes;
    var d, open := cur.mode.depth, cur.mode.open;
    var filled, closed := InBlock(d + 1, Grow(open, "/*" + body)), InBlock(d, Grow(open, "/*" + (body + "*/")));
    assert (open.text + ("/*" + body)) + "*/" == open.text + ("/*" + (body + "*/"));
    assert ("/*" + body) + "*/" == "/*" + (body + "*/");
    TwoChars(Moved(cur, "/*" + body, filled), '*', '/', after, closed);
    Both(cur, "/*" + body, "*/", after, filled, closed);
  }

  lemma BlockOpenPasses(cur: Cursor, pieces: seq<Piece>, after: string)
    requires cur.mode.Code? && PiecesOk(pieces, '*')
    ensures var text := "/*" + RenderPieces(pieces);
            Passes(cur, text, "*/" + after, InBlock(1, Found(cur.pos, cur.line, cur.slips, text)))
  {
    hide Scan;
    var body := RenderPieces(pieces);
    var open := Found(cur.pos, cur.line, cur.slips, "/*");
    TwoChars(cur, '/', '*', body + ("*/" + after), InBlock(1, open));
    PiecesPass(Moved(cur, "/*", InBlock(1, open)), pieces, "*/" + after);
    Both(cur, "/*", body, "*/" + after, InBlock(1, open), InBlock(1, Grow(open, body)));
  }

  lemma BlockCommentScans(cur: Cursor, pieces: seq<Piece>, after: string)
    requires cur.mode.Code? && PiecesOk(pieces, '*')
    ensures var r := RenderToken(BlockComment(pieces));
            Scan(cur, r + after)
            == [Found(cur.pos, cur.line, cur.slips, r)] + Scan(Moved(cur, r, Code), after)
  {
    hide Scan;
    var text := "/*" + RenderPieces(pieces);
    var open := Found(cur.pos, cur.line, cur.slips, text);
    BlockOpenPasses(cur, pieces, after);
    Newlines2('*', '/');
    EmitTurn(Moved(cur, text, InBlock(1, open)), "*/", after, Grow(open, "*/"));
    MovedTwice(cur, text, "*/", InBlock(1, open), Code);
    assert text + "*/" == "/*" + (RenderPieces(pieces) + "*/");
    assert text + ("*/" + after) == (text + "*/") + after;
  }

  /** A lifetime whose name does not begin in ASCII is taken for a char literal. */
  lemma WideLifetimeOpensChar(cur: Cursor, c: char, after: string)
    requires cur.mode.Code? && c >= 128 as char
    ensures Scan(cur, "'" + ([c] + after)) == Scan(Moved(cur, "'", InChar), [c] + after)
  {
    hide Scan;
    OneChar(cur, '\'', [c] + after, InChar);
  }

  lemma CodeCharPasses(cur: Cursor, c: char, after: string)
    requires cur.mode.Code? && TokenOk(CodeChar(c), cur.prev, after)
    ensures Passes(cur, [c], after, Code)
  {
    hide IsWordChar;
    IdentsAreWords(cur.prev);
    if SkipRawPrefix(cur.prev, [c] + after).Some? {
      RawPrefixOpens(cur.prev, [c] + after);
    }
    OneChar(cur, c, after, Code);
  }

  /** One token: its comment, if it is one, and the scan goes on behind it in code. */
  lemma TokenScans(cur: Cursor, t: Token, after: string)
    requires cur.mode.Code? && cur.slips == 0 && TokenOk(t, cur.prev, after)
    ensures Scan(cur, RenderToken(t) + after)
         == CommentOf(t, cur.pos, cur.line) + Scan(Moved(cur, RenderToken(t), Code), after)
  {
    match t {
      case CodeChar(c) => CodeCharPasses(cur, c, after);
      case Lifetime(name) => LifetimePasses(cur, name, after);
      case CharLit(units) => CharLitPasses(cur, units, after);
      case Str(prefix, units) => StrPasses(cur, prefix, units, after);
      case RawStr(prefix, hashes, body) => RawStrPasses(cur, prefix, hashes, body, after);
      case LineComment(body) => LineCommentScans(cur, body, after);
      case BlockComment(pieces) => BlockCommentScans(cur, pieces, after);
    }
  }

  lemma TailScans(cur: Cursor, tail: Tail)
    requires cur.mode.Code? && cur.slips == 0 && (tail.OpenLine? ==> '\n' !in tail.body)
    ensures Scan(cur, RenderTail(tail)) == CommentsOf([], tail, cur.pos, cur.line)
  {
    if tail.OpenLine? {
      LineAtEnd(cur, tail.body);
    }
  }

  lemma {:induction false} TokensScan(cur: Cursor, tokens: seq<Token>, tail: Tail)
    requires cur.mode.Code? && cur.slips == 0 && TokensOk(tokens, tail, cur.prev)
    ensures Scan(cur, Render(tokens, tail)) == CommentsOf(tokens, tail, cur.pos, cur.line)
    decreases |tokens|
  {
    hide Scan, TurnOf, TokenOk, RenderToken, CommentOf;
    if tokens == [] {
      TailScans(cur, tail);
    } else {
      var r := RenderToken(tokens[0]);
      TokenScans(cur, tokens[0], Render(tokens[1..], tail));
      TokensScan(Moved(cur, r, Code), tokens[1..], tail);
    }
  }

  /** The extractor run on a rendered text returns exactly its comments, in order, each
    * with the line it starts on. */
  lemma ExtractsRenderedComments(tokens: seq<Token>, tail: Tail)
    requires TokensOk(tokens, tail, '\0')
    ensures Scan(START, Render(tokens, tail)) == CommentsOf(tokens, tail, 0, 1)
  {
    TokensScan(START, tokens, tail);
  }

  method ExtractFromTokens(tokens: seq<Token>, tail: Tail) returns (out: seq<(nat, string)>)
    requires TokensOk(tokens, tail, '\0')
    ensures out == Lines(CommentsOf(tokens, tail, 0, 1))
  {
    ExtractsRenderedComments(tokens, tail);
    out := ExtractRsComments(Render(tokens, tail));
  }
}
