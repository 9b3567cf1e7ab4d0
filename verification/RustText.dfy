/** What the two hand-written scanners of Rust text share: the bytes they look at, and
  * the literals their grammars are built from.
  *
  * The programs work on the bytes of a UTF-8 text. A byte is written here as the
  * character with that code; every byte they compare with is ASCII. */
module RustText {
  import opened Letters

  predicate IsIdent(c: char) {
    '0' <= c <= '9' || 'a' <= c <= 'z' || 'A' <= c <= 'Z' || c == '_'
  }

  /** The program's test finds exactly the identifier characters. */
  lemma IdentsAreWords(c: char)
    ensures IsIdent(c) <==> IsWordChar(c)
  {
    UpperIsRange(c);
    LowerIsRange(c);
    DigitIsRange(c);
  }

  /** The byte at `i`, or the zero the program uses past the end. */
  function At(s: string, i: nat): char {
    if i < |s| then s[i] else '\0'
  }

  function Drop(s: string, n: nat): string {
    if n <= |s| then s[n..] else ""
  }

  function LeadingHashes(s: string): nat {
    if s != "" && s[0] == '#' then 1 + LeadingHashes(s[1..]) else 0
  }

  function LeadingIdent(s: string): nat {
    if s != "" && IsIdent(s[0]) then 1 + LeadingIdent(s[1..]) else 0
  }

  lemma {:induction false} LeadingHashesBound(s: string)
    ensures LeadingHashes(s) <= |s|
    ensures forall i :: 0 <= i < LeadingHashes(s) ==> s[i] == '#'
    ensures LeadingHashes(s) < |s| ==> s[LeadingHashes(s)] != '#'
  {
    if s != "" && s[0] == '#' { LeadingHashesBound(s[1..]); }
  }

  lemma {:induction false} LeadingIdentBound(s: string)
    ensures LeadingIdent(s) <= |s|
    ensures forall i :: 0 <= i < LeadingIdent(s) ==> IsIdent(s[i])
    ensures LeadingIdent(s) < |s| ==> !IsIdent(s[LeadingIdent(s)])
  {
    if s != "" && IsIdent(s[0]) { LeadingIdentBound(s[1..]); }
  }

  /** The loop over `#` that the program writes twice. */
  method CountHashes(bytes: string, from: nat) returns (h: nat)
    requires from <= |bytes|
    ensures h == LeadingHashes(bytes[from..]) && from + h <= |bytes|
  {
    h := 0;
    while from + h < |bytes| && bytes[from + h] == '#'
      invariant from + h <= |bytes|
      invariant LeadingHashes(bytes[from..]) == h + LeadingHashes(bytes[from + h..])
    {
      h := h + 1;
    }
  }

  method CountIdent(bytes: string, from: nat) returns (k: nat)
    requires from <= |bytes|
    ensures k == LeadingIdent(bytes[from..]) && from + k <= |bytes|
  {
    k := 0;
    while from + k < |bytes| && IsIdent(bytes[from + k])
      invariant from + k <= |bytes|
      invariant LeadingIdent(bytes[from..]) == k + LeadingIdent(bytes[from + k..])
    {
      k := k + 1;
    }
  }

  // ---------- literals ----------

  /** A character of a quoted literal, or a backslash and the character it escapes. */
  datatype Unit = Plain(c: char) | Escaped(c: char)

  function RenderUnits(units: seq<Unit>): string {
    if units == [] then ""
    else (match units[0] case Plain(c) => [c] case Escaped(c) => ['\\', c]) + RenderUnits(units[1..])
  }

  /** The literal ends at no earlier quote, and every backslash escapes. */
  predicate UnitsOk(units: seq<Unit>, quote: char) {
    forall i :: 0 <= i < |units| && units[i].Plain? ==> units[i].c != quote && units[i].c != '\\'
  }

  function Hashes(n: nat): string {
    if n == 0 then "" else "#" + Hashes(n - 1)
  }

  /** No quote of a raw string's body has as many hashes behind it as the string closes with. */
  predicate RawBodyOk(body: string, hashes: nat) {
    body != "" ==> (body[0] == '"' ==> LeadingHashes(body[1..]) < hashes) && RawBodyOk(body[1..], hashes)
  }

  lemma {:induction false} LeadingHashesOf(n: nat, after: string)
    ensures LeadingHashes(Hashes(n) + after) == n + LeadingHashes(after) && |Hashes(n)| == n
  {
    if n == 0 {
      assert Hashes(n) + after == after;
    } else {
      LeadingHashesOf(n - 1, after);
      assert (Hashes(n) + after)[1..] == Hashes(n - 1) + after;
    }
  }

  lemma {:induction false} BodyHashes(body: string, after: string)
    ensures LeadingHashes(body + ("\"" + after)) == LeadingHashes(body)
  {
    if body == "" {
      assert body + ("\"" + after) == "\"" + after;
    } else {
      assert (body + ("\"" + after))[1..] == body[1..] + ("\"" + after);
      BodyHashes(body[1..], after);
    }
  }
}
