/** Classes of characters, written out, for the grammars and policies to speak of. */
module Letters {
  const UPPER_LETTERS := "ABCDEFGHIJKLMNOPQRSTUVWXYZ"
  const LOWER_LETTERS := "abcdefghijklmnopqrstuvwxyz"
  const DIGITS := "0123456789"

  lemma UpperAt(k: nat)
    requires k < 26
    ensures UPPER_LETTERS[k] == 'A' + k as char
  {
  }

  lemma LowerAt(k: nat)
    requires k < 26
    ensures LOWER_LETTERS[k] == 'a' + k as char
  {
  }

  lemma DigitAt(k: nat)
    requires k < 10
    ensures DIGITS[k] == '0' + k as char
  {
  }

  lemma UpperIsRange(c: char)
    ensures c in UPPER_LETTERS <==> 'A' <= c <= 'Z'
  {
    if c in UPPER_LETTERS {
      var k :| 0 <= k < 26 && UPPER_LETTERS[k] == c;
      UpperAt(k);
    }
    if 'A' <= c <= 'Z' { UpperAt((c - 'A') as nat); }
  }

  lemma LowerIsRange(c: char)
    ensures c in LOWER_LETTERS <==> 'a' <= c <= 'z'
  {
    if c in LOWER_LETTERS {
      var k :| 0 <= k < 26 && LOWER_LETTERS[k] == c;
      LowerAt(k);
    }
    if 'a' <= c <= 'z' { LowerAt((c - 'a') as nat); }
  }

  lemma DigitIsRange(c: char)
    ensures c in DIGITS <==> '0' <= c <= '9'
  {
    if c in DIGITS {
      var k :| 0 <= k < 10 && DIGITS[k] == c;
      DigitAt(k);
    }
    if '0' <= c <= '9' { DigitAt((c - '0') as nat); }
  }

  /** A character of a Rust identifier, in ASCII. */
  predicate IsWordChar(c: char) {
    c == '_' || c in UPPER_LETTERS || c in LOWER_LETTERS || c in DIGITS
  }
}
