/** `skip_item`, `strip_cfg_test_items` and `read_literal` of `backend/src/error.rs`.
  *
  * The scanner that skips one annotated item knows strings, raw strings, chars and
  * comments, but not as Rust does: block comments do not nest, `br"` is an ordinary
  * string, and a `;` outside braces ends the item wherever it stands. */
module ItemSkipper {
  import opened Common
  import opened RustText

  const MARK := "#[cfg(test)]"

  // ---------- searching ----------

  function Find(s: string, needle: string): (r: Option<nat>)
    requires needle != ""
    ensures r.Some? ==> r.value + |needle| <= |s|
  {
    if |s| < |needle| then None
    else if needle <= s then Some(0)
    else
      var r := Find(s[1..], needle);
      if r.None? then None else Some(r.value + 1)
  }

  /** The place found is the first at which the needle stands, if it stands anywhere. */
  lemma {:induction false} FindIsFirst(s: string, needle: string)
    requires needle != ""
    ensures Find(s, needle).Some? ==> needle <= s[Find(s, needle).value..]
    ensures forall i :: 0 <= i <= |s| && needle <= s[i..] ==> Find(s, needle).Some? && Find(s, needle).value <= i
  {
    if |s| >= |needle| && !(needle <= s) {
      FindIsFirst(s[1..], needle);
      forall i | 0 <= i <= |s| && needle <= s[i..] ensures Find(s, needle).Some? && Find(s, needle).value <= i {
        assert i > 0 && s[1..][i - 1..] == s[i..];
      }
      if Find(s, needle).Some? {
        assert s[1..][Find(s[1..], needle).value..] == s[Find(s, needle).value..];
      }
    }
  }

  /** Characters before the first `c`, or all of them. */
  function Until(s: string, c: char): nat {
    if s == "" || s[0] == c then 0 else 1 + Until(s[1..], c)
  }

  /** Characters before the quote that ends a string; a backslash takes one more along. */
  function StringLength(s: string): nat
    decreases |s|
  {
    if s == "" || s[0] == '"' then 0
    else if s[0] == '\\' then 2 + StringLength(Drop(s, 2))
    else 1 + StringLength(s[1..])
  }

  // ---------- one turn of the scanner ----------

  /** Move on, return what is left from `n`, or panic on a raw string without an end. */
  datatype Turn = Advance(n: nat, depth: nat) | Stop(n: nat) | Panics

  function TurnOf(prev: char, rest: string, depth: nat): (t: Turn)
    requires rest != ""
    ensures t.Advance? ==> t.n > 0
  {
    var c := rest[0];
    if c == '{' then Advance(1, depth + 1)
    else if c == '}' then
      if depth == 0 then Stop(0) else if depth == 1 then Stop(1) else Advance(1, depth - 1)
    else if c == ';' && depth == 0 then Stop(1)
    else
      var n := Jump(prev, rest);
      if n.None? then Panics else Advance(n.value, depth)
  }

  /** How far a comment, a literal or any other byte reaches; `None` is the panic. */
  function Jump(prev: char, rest: string): (n: Option<nat>)
    requires rest != ""
    ensures n.Some? ==> n.value > 0
  {
    var c := rest[0];
    if c == '/' && At(rest, 1) == '/' then Some(Until(rest, '\n') + 1)
    else if c == '/' && At(rest, 1) == '*' then
      var end := Find(Drop(rest, 2), "*/");
      Some(if end.Some? then 2 + end.value + 2 else |rest| + 1)
    else if c == 'r' && (At(rest, 1) == '"' || At(rest, 1) == '#') && !IsIdent(prev) then RawJump(rest)
    else if c == '"' then Some(2 + StringLength(rest[1..]))
    else if c == '\'' then
      if At(rest, 1) == '\\' then Some(3 + Until(Drop(rest, 2), '\''))
      else if At(rest, 2) == '\'' then Some(3)
      else Some(1)
    else Some(1)
  }

  function RawJump(rest: string): (n: Option<nat>)
    requires rest != ""
    ensures n.Some? ==> n.value > 0
  {
    var hashes := LeadingHashes(rest[1..]);
    if At(rest, 1 + hashes) != '"' then Some(1)
    else
      var end := Find(Drop(rest, 2 + hashes), "\"" + Hashes(hashes));
      if end.None? then None else Some(2 + hashes + end.value + 1 + hashes)
  }

  datatype Outcome = Left(text: string) | Panic

  function Skip(prev: char, rest: string, depth: nat): Outcome
    decreases |rest|
  {
    if rest == "" then Left("")
    else
      match TurnOf(prev, rest, depth)
      case Panics => Panic
      case Stop(n) => Left(Drop(rest, n))
      case Advance(n, d) => Skip(At(rest, n - 1), Drop(rest, n), d)
  }

  ghost predicate IsSuffix(t: string, s: string) {
    |t| <= |s| && s[|s| - |t|..] == t
  }

  lemma {:induction false} SkipGivesSuffix(prev: char, rest: string, depth: nat)
    ensures Skip(prev, rest, depth).Left? ==> IsSuffix(Skip(prev, rest, depth).text, rest)
    decreases |rest|
  {
    if rest != "" {
      var t := TurnOf(prev, rest, depth);
      if t.Advance? {
        SkipGivesSuffix(At(rest, t.n - 1), Drop(rest, t.n), t.depth);
      }
    }
  }

  /** What stripping a whole source leaves. */
  function Strip(source: string): Outcome
    decreases |source|
  {
    var at := Find(source, MARK);
    if at.None? then Left(source)
    else
      var after := source[at.value + |MARK|..];
      SkipGivesSuffix('\0', after, 0);
      match Skip('\0', after, 0)
      case Panic => Panic
      case Left(rest) =>
        match Strip(rest)
        case Panic => Panic
        case Left(kept) => Left(source[..at.value] + kept)
  }

  // ---------- when it panics ----------

  /** The text opens a raw string: an `r`, hashes, a quote. */
  predicate RawOpens(rest: string) {
    rest != "" && rest[0] == 'r' && At(rest, 1 + LeadingHashes(rest[1..])) == '"'
  }

  /** Somewhere behind the opening there is a quote with as many hashes. */
  predicate RawCloses(rest: string)
    requires rest != ""
  {
    var h := LeadingHashes(rest[1..]);
    Find(Drop(rest, 2 + h), "\"" + Hashes(h)).Some?
  }

  function Before(s: string, i: nat): char
    requires i <= |s|
  {
    if i > 0 then s[i - 1] else '\0'
  }

  /** Every `r` that opens a raw string and is not the end of a word has its closing quote. */
  ghost predicate RawStringsEnd(s: string) {
    forall i :: 0 <= i < |s| && !IsIdent(Before(s, i)) && RawOpens(s[i..]) ==> RawCloses(s[i..])
  }

  /** Where the scanner stands: before a byte at some depth, or no longer, having returned or
    * panicked. */
  datatype Place = Standing(prev: char, rest: string, depth: nat) | Over

  /** Where it stands after `k` turns. */
  function Stand(p: Place, k: nat): Place
    decreases k
  {
    if k == 0 || p.Over? || p.rest == "" then p
    else
      var t := TurnOf(p.prev, p.rest, p.depth);
      if t.Advance? then Stand(Standing(At(p.rest, t.n - 1), Drop(p.rest, t.n), t.depth), k - 1) else Over
  }

  /** At a raw string that opens and does not end. */
  predicate AtUnended(p: Place) {
    p.Standing? && !IsIdent(p.prev) && RawOpens(p.rest) && !RawCloses(p.rest)
  }

  ghost predicate MeetsUnended(p: Place) {
    exists k: nat :: AtUnended(Stand(p, k))
  }

  lemma TurnPanics(prev: char, rest: string, depth: nat)
    requires rest != ""
    ensures TurnOf(prev, rest, depth).Panics? <==> AtUnended(Standing(prev, rest, depth))
  {
    hide Find, Until, StringLength, Hashes;
  }

  lemma MeetsNowOrLater(p: Place)
    requires p.Standing? && p.rest != ""
    ensures MeetsUnended(p) <==> AtUnended(p) || MeetsUnended(Stand(p, 1))
  {
    hide TurnOf, AtUnended;
    var next := Stand(p, 1);
    assert Stand(p, 0) == p;
    if MeetsUnended(p) {
      var k: nat :| AtUnended(Stand(p, k));
      if k > 0 { assert Stand(p, k) == Stand(next, k - 1); }
    }
    if MeetsUnended(next) {
      var k: nat :| AtUnended(Stand(next, k));
      assert Stand(p, k + 1) == Stand(next, k);
    }
  }

  lemma MeetsNothing(p: Place)
    requires p.Over? || p.rest == ""
    ensures !MeetsUnended(p)
  {
    hide TurnOf, RawCloses;
    forall k: nat ensures !AtUnended(Stand(p, k)) {
      assert Stand(p, k) == p;
    }
  }

  lemma SkipTurns(prev: char, rest: string, depth: nat)
    requires rest != ""
    ensures var t := TurnOf(prev, rest, depth); var next := Stand(Standing(prev, rest, depth), 1);
            && (t.Advance? ==> next.Standing? && |next.rest| < |rest|
                               && Skip(prev, rest, depth) == Skip(next.prev, next.rest, next.depth))
            && (!t.Advance? ==> next.Over? && (Skip(prev, rest, depth).Panic? <==> t.Panics?))
  {
    hide TurnOf;
    var p := Standing(prev, rest, depth);
    var t := TurnOf(prev, rest, depth);
    if t.Advance? {
      var next := Standing(At(rest, t.n - 1), Drop(rest, t.n), t.depth);
      assert Stand(p, 1) == Stand(next, 0);
    }
  }

  /** The scanner panics exactly if some turn stands at a raw string that does not end. */
  lemma {:induction false} PanicsExactly(prev: char, rest: string, depth: nat)
    ensures Skip(prev, rest, depth).Panic? <==> MeetsUnended(Standing(prev, rest, depth))
    decreases |rest|
  {
    hide TurnOf, AtUnended, MeetsUnended, Stand;
    var p := Standing(prev, rest, depth);
    if rest == "" {
      MeetsNothing(p);
    } else {
      var next := Stand(p, 1);
      SkipTurns(prev, rest, depth);
      TurnPanics(prev, rest, depth);
      MeetsNowOrLater(p);
      if next.Standing? { PanicsExactly(next.prev, next.rest, next.depth); } else { MeetsNothing(next); }
    }
  }

  /** On any text: `skip_item` returns exactly if it meets no raw string without an end, and
    * what it returns is a suffix of its input. */
  lemma SkipItemReturnsSuffix(src: string)
    ensures Skip('\0', src, 0).Left? <==> !MeetsUnended(Standing('\0', src, 0))
    ensures Skip('\0', src, 0).Left? ==> IsSuffix(Skip('\0', src, 0).text, src)
  {
    hide Skip, MeetsUnended;
    PanicsExactly('\0', src, 0);
    SkipGivesSuffix('\0', src, 0);
  }

  /** Wherever it stands, it stands somewhere in the text. */
  lemma {:induction false} StandsInText(src: string, i: nat, depth: nat, k: nat)
    requires i <= |src|
    ensures var p := Stand(Standing(Before(src, i), src[i..], depth), k);
            p.Standing? && p.rest != "" ==> exists j :: 0 <= j < |src| && p.rest == src[j..] && p.prev == Before(src, j)
    decreases k
  {
    hide TurnOf;
    var rest := src[i..];
    if k > 0 && rest != "" {
      var t := TurnOf(Before(src, i), rest, depth);
      if t.Advance? && i + t.n <= |src| {
        assert Drop(rest, t.n) == src[i + t.n..];
        StandsInText(src, i + t.n, t.depth, k - 1);
      }
    }
  }

  /** So it returns for any text all of whose raw strings end, also those that only seem to
    * open one inside a comment or a string. */
  lemma EndedRawStringsReturn(src: string)
    requires RawStringsEnd(src)
    ensures Skip('\0', src, 0).Left?
  {
    hide Skip, RawOpens, RawCloses, Stand;
    var start := Standing('\0', src, 0);
    assert src[0..] == src;
    forall k: nat ensures !AtUnended(Stand(start, k)) {
      StandsInText(src, 0, 0, k);
      NothingOpens(Stand(start, k));
    }
    SkipItemReturnsSuffix(src);
  }

  lemma NothingOpens(p: Place)
    ensures p.Standing? && p.rest == "" ==> !AtUnended(p)
  {
  }

  /** And there are texts on which it panics: here the search for the closing quote fails. */
  lemma UnendedRawStringPanics()
    ensures Skip('\0', "r\"", 0) == Panic
  {
    assert "r\""[1..] == "\"" && Drop("r\"", 2) == "";
  }

  // ---------- the programs ----------

  function Later(r: Option<nat>, k: nat): Option<nat> {
    if r.None? then None else Some(r.value + k)
  }

  /** A search that fails at `i` goes on behind it. */
  lemma FindStep(s: string, i: nat, needle: string)
    requires needle != "" && i + |needle| <= |s|
    ensures s[i..i + |needle|] == needle ==> Find(s[i..], needle) == Some(0)
    ensures s[i..i + |needle|] != needle ==> Find(s[i..], needle) == Later(Find(s[i + 1..], needle), 1)
  {
    assert s[i..][..|needle|] == s[i..i + |needle|];
    assert s[i..][1..] == s[i + 1..];
  }

  method FindFrom(s: string, from: nat, needle: string) returns (r: Option<nat>)
    requires from <= |s| && needle != ""
    ensures r == Find(s[from..], needle)
  {
    var i := from;
    while i + |needle| <= |s|
      invariant from <= i <= |s|
      invariant Find(s[from..], needle) == Later(Find(s[i..], needle), i - from)
    {
      FindStep(s, i, needle);
      if s[i..i + |needle|] == needle {
        return Some(i - from);
      }
      i := i + 1;
    }
    return None;
  }

  lemma UntilStep(s: string, i: nat, c: char)
    requires i <= |s|
    ensures i < |s| && s[i] != c ==> Until(s[i..], c) == 1 + Until(s[i + 1..], c)
    ensures i == |s| || s[i] == c ==> Until(s[i..], c) == 0
  {
    if i < |s| { assert s[i..][1..] == s[i + 1..]; }
  }

  method CountUntil(bytes: string, from: nat, c: char) returns (i: nat)
    requires from <= |bytes|
    ensures i == from + Until(bytes[from..], c) && i <= |bytes|
  {
    i := from;
    while i < |bytes| && bytes[i] != c
      invariant from <= i <= |bytes|
      invariant from + Until(bytes[from..], c) == i + Until(bytes[i..], c)
    {
      UntilStep(bytes, i, c);
      i := i + 1;
    }
    UntilStep(bytes, i, c);
  }

  /** A block comment: up to the slash of the first closing mark, or past the end. */
  method BlockCommentBranch(bytes: string, from: nat) returns (i: nat)
    requires from + 1 < |bytes| && bytes[from] == '/' && bytes[from + 1] == '*'
    ensures var end := Find(bytes[from + 2..], "*/");
            if end.Some? then i == from + 2 + end.value + 1 else i >= |bytes|
    ensures i > from
  {
    hide Find;
    i := from + 2;
    while i + 1 < |bytes| && !(bytes[i] == '*' && bytes[i + 1] == '/')
      invariant from + 2 <= i <= |bytes|
      invariant Find(bytes[from + 2..], "*/") == Later(Find(bytes[i..], "*/"), i - from - 2)
    {
      NotYet(bytes, i);
      i := i + 1;
    }
    FoundHere(bytes, i);
    i := i + 1;
  }

  lemma NotYet(s: string, i: nat)
    requires i + 1 < |s| && !(s[i] == '*' && s[i + 1] == '/')
    ensures Find(s[i..], "*/") == Later(Find(s[i + 1..], "*/"), 1)
  {
    FindStep(s, i, "*/");
    assert s[i..i + 2] == [s[i], s[i + 1]];
  }

  lemma FoundHere(s: string, i: nat)
    requires i <= |s| && (i + 1 < |s| ==> s[i] == '*' && s[i + 1] == '/')
    ensures Find(s[i..], "*/") == if i + 1 < |s| then Some(0) else None
  {
    if i + 1 < |s| {
      FindStep(s, i, "*/");
      assert s[i..i + 2] == [s[i], s[i + 1]];
    }
  }

  method StringBranch(bytes: string, from: nat) returns (i: nat)
    requires from < |bytes| && bytes[from] == '"'
    ensures i == from + 1 + StringLength(bytes[from + 1..])
  {
    i := from + 1;
    while i < |bytes| && bytes[i] != '"'
      invariant from < i <= |bytes| + 1
      invariant from + 1 + StringLength(bytes[from + 1..]) == i + StringLength(Drop(bytes, i))
      decreases |bytes| + 1 - i
    {
      assert Drop(bytes, i) == bytes[i..];
      if bytes[i] == '\\' {
        assert Drop(bytes[i..], 2) == Drop(bytes, i + 2);
        i := i + 1;
      } else {
        assert bytes[i..][1..] == Drop(bytes, i + 1);
      }
      i := i + 1;
    }
  }

  /** A raw string, or an `r` with hashes that is none; `None` is the panic. */
  method RawBranch(src: string, from: nat) returns (i: Option<nat>)
    requires from < |src| && src[from] == 'r'
    ensures var n := RawJump(src[from..]);
            i == if n.None? then None else Some(from + n.value - 1)
  {
    var hashes := CountHashes(src, from + 1);
    assert src[from..][1..] == src[from + 1..];
    ghost var rest := src[from..];
    assert At(rest, 1 + hashes) == At(src, from + 1 + hashes);
    if from + 1 + hashes < |src| && src[from + 1 + hashes] == '"' {
      var close := "\"" + Repeat('#', hashes);
      var body := from + 2 + hashes;
      assert Drop(rest, 2 + hashes) == src[body..];
      var end := FindFrom(src, body, close);
      if end.None? {
        return None;
      }
      i := Some(body + end.value + |close| - 1);
    } else {
      i := Some(from);
    }
  }

  function Repeat(c: char, n: nat): (r: string)
    ensures |r| == n
    ensures c == '#' ==> r == Hashes(n)
  {
    if n == 0 then "" else [c] + Repeat(c, n - 1)
  }

  /** The body of the loop: go on at `i'` with `depth'`, return, or panic. */
  datatype Next = Go(i: nat, depth: nat) | Return(text: string) | Unwrap

  /** `next` is the turn taken at `i`, in indices of the whole text. */
  ghost predicate Follows(src: string, i: nat, t: Turn, next: Next)
    requires i < |src|
  {
    match t
    case Panics => next.Unwrap?
    case Stop(n) => next == Return(Drop(src[i..], n))
    case Advance(n, d) =>
      && next.Go? && next.depth == d && next.i > i && n > 0
      && Drop(src, next.i) == Drop(src[i..], n)
      && (next.i <= |src| ==> Before(src, next.i) == At(src[i..], n - 1))
  }

  /** The arms for comments and literals: the index they leave, or the panic. */
  method JumpBranches(src: string, i: nat) returns (j: Option<nat>)
    requires i < |src|
    ensures var n := Jump(Before(src, i), src[i..]);
            && j.Some? == n.Some?
            && (j.Some? ==> j.value == i + n.value - 1 || (i + n.value > |src| && j.value >= |src|))
  {
    ghost var rest := src[i..];
    assert rest[1..] == src[i + 1..] && (i + 2 <= |src| ==> Drop(rest, 2) == src[i + 2..]);
    hide LeadingHashes, Find, Until, StringLength, RawJump;
    var c := src[i];
    j := Some(i);
    if c == '/' && i + 1 < |src| && src[i + 1] == '/' {
      var end := CountUntil(src, i, '\n');
      j := Some(end);
    } else if c == '/' && i + 1 < |src| && src[i + 1] == '*' {
      var end := BlockCommentBranch(src, i);
      j := Some(end);
    } else if c == 'r' && i + 1 < |src| && (src[i + 1] == '"' || src[i + 1] == '#')
              && (i == 0 || !IsIdent(src[i - 1])) {
      j := RawBranch(src, i);
    } else if c == '"' {
      var end := StringBranch(src, i);
      j := Some(end);
    } else if c == '\'' {
      if i + 1 < |src| && src[i + 1] == '\\' {
        var end := CountUntil(src, i + 2, '\'');
        j := Some(end);
      } else if i + 2 < |src| && src[i + 2] == '\'' {
        j := Some(i + 2);
      }
    }
  }

  method SkipTurn(src: string, i: nat, depth: nat) returns (next: Next)
    requires i < |src|
    ensures Follows(src, i, TurnOf(Before(src, i), src[i..], depth), next)
  {
    hide Jump;
    var c := src[i];
    if c == '{' {
      next := Go(i + 1, depth + 1);
    } else if c == '}' {
      if depth == 0 {
        return Return(src[i..]);
      }
      if depth - 1 == 0 {
        return Return(src[i + 1..]);
      }
      next := Go(i + 1, depth - 1);
    } else if c == ';' && depth == 0 {
      return Return(src[i + 1..]);
    } else {
      var j := JumpBranches(src, i);
      if j.None? {
        return Unwrap;
      }
      next := Go(j.value + 1, depth);
    }
  }

  method SkipItem(src: string) returns (r: Outcome)
    ensures r == Skip('\0', src, 0)
  {
    hide TurnOf;
    var i, depth := 0, 0;
    assert src[0..] == src;
    while i < |src|
      invariant Skip(if i <= |src| then Before(src, i) else '\0', Drop(src, i), depth) == Skip('\0', src, 0)
      decreases |src| + 1 - i
    {
      var next := SkipTurn(src, i, depth);
      match next {
        case Unwrap => return Panic;
        case Return(text) => return Left(text);
        case Go(j, d) => i, depth := j, d;
      }
    }
    r := Left("");
  }

  lemma StripStep(rest: string, at: nat)
    requires Find(rest, MARK) == Some(at)
    ensures var left := Skip('\0', rest[at + |MARK|..], 0);
            Strip(rest) == if left.Panic? then Panic else Prepend(rest[..at], Strip(left.text))
  {
    hide Skip, Find;
  }

  method StripCfgTestItems(source: string) returns (r: Outcome)
    ensures r == Strip(source)
  {
    hide Skip, Strip, Find;
    var out := "";
    var rest := source;
    assert rest[0..] == rest;
    var at := FindFrom(rest, 0, MARK);
    while at.Some?
      invariant at == Find(rest, MARK)
      invariant Strip(source) == Prepend(out, Strip(rest))
      decreases |rest|
    {
      var after := rest[at.value + |MARK|..];
      StripStep(rest, at.value);
      SkipGivesSuffix('\0', after, 0);
      var left := SkipItem(after);
      if left.Panic? {
        return Panic;
      }
      PrependTwice(out, rest[..at.value], Strip(left.text));
      out := out + rest[..at.value];
      rest := left.text;
      assert rest[0..] == rest;
      at := FindFrom(rest, 0, MARK);
    }
    StripNothing(rest);
    r := Left(out + rest);
  }

  lemma StripNothing(rest: string)
    requires Find(rest, MARK).None?
    ensures Strip(rest) == Left(rest)
  {
  }

  lemma PrependTwice(a: string, b: string, r: Outcome)
    ensures Prepend(a, Prepend(b, r)) == Prepend(a + b, r)
  {
    if r.Left? {
      assert a + (b + r.text) == (a + b) + r.text;
    }
  }

  function Prepend(out: string, r: Outcome): Outcome {
    if r.Panic? then Panic else Left(out + r.text)
  }

  // ---------- read_literal ----------

  /** The literal as written, and the text after its closing quote. */
  function Literal(rest: string): (string, string) {
    var n := StringLength(rest);
    if n <= |rest| then (rest[..n], Drop(rest, n + 1)) else (rest, "")
  }

  method ReadLiteral(rest: string) returns (literal: string, after: string)
    ensures (literal, after) == Literal(rest)
  {
    literal := "";
    var at := 0;
    while at < |rest|
      invariant at <= |rest| && literal == rest[..at]
      invariant StringLength(rest) == at + StringLength(rest[at..])
    {
      var c := rest[at];
      if c == '"' {
        return literal, rest[at + 1..];
      }
      if c == '\\' {
        literal := literal + "\\";
        at := at + 1;
        if at < |rest| {
          literal := literal + [rest[at]];
          at := at + 1;
          assert Drop(rest[at - 2..], 2) == rest[at..];
        } else {
          assert Drop(rest[at - 1..], 2) == "";
          assert literal == rest;
          return literal, "";
        }
      } else {
        literal := literal + [c];
        assert rest[at..][1..] == rest[at + 1..];
        at := at + 1;
      }
    }
    after := "";
  }
}
