/** Concrete scans that pin down the scanner's observable behaviour,
    including the quirks of the source that the model keeps. */
module ScannerExamples {

  import opened Errors
  import opened Tokens
  import opened Lexing
  import ScannerProperties

  /** A two-character operator is one token; the end-of-input token is on line 0. */
  lemma ScanBangEqual()
    ensures Scan("!=") == Outcome([Token(BangEqual, 1), Token(Eof, 0)], None)
  {
    assert Dispatch("!=", Position(0, 1)) == Emit(BangEqual, 1, 2);
    assert ScanFrom("!=", Position(2, 1)) == Outcome([], None);
  }

  /** An unknown character stops the scan with an error on its line. */
  lemma ScanUnexpected()
    ensures Scan("@") == Outcome([Token(Eof, 0)], Some(Error(1, UnexpectedCharacter)))
  {
  }

  /** The character that ends a word is consumed with it: the closing
      parenthesis after an identifier never becomes a token. */
  lemma WordSwallowsNextCharacter()
    ensures Scan("a)") == Outcome([Token(Identifier("a"), 1), Token(Eof, 0)], None)
  {
    var src := "a)";
    ScannerProperties.IdentifierToken(src, Position(0, 1), 1);
    assert src[0..1] == "a";
    assert ScanFrom(src, Position(2, 1)) == Outcome([], None);
  }

  /** A line break that ends a word is consumed without being counted, so
      the next word is still attributed to line 1. */
  lemma NewlineAfterWordNotCounted()
    ensures Scan("a\nb") ==
      Outcome([Token(Identifier("a"), 1), Token(Identifier("b"), 1), Token(Eof, 0)], None)
  {
    var src := "a\nb";
    FirstWord();
    LastWord();
    assert ScanFrom(src, Position(0, 1)) ==
      Outcome([Token(Identifier("a"), 1), Token(Identifier("b"), 1)], None);
  }

  lemma FirstWord()
    ensures Dispatch("a\nb", Position(0, 1)) == Emit(Identifier("a"), 1, 2)
  {
    var src := "a\nb";
    ScannerProperties.IdentifierToken(src, Position(0, 1), 1);
    assert src[0..1] == "a";
  }

  lemma LastWord()
    ensures ScanFrom("a\nb", Position(2, 1)) == Outcome([Token(Identifier("b"), 1)], None)
  {
    var src := "a\nb";
    ScannerProperties.IdentifierToken(src, Position(2, 1), 3);
    assert src[2..3] == "b";
    assert ScanFrom(src, Position(3, 1)) == Outcome([], None);
  }

  /** A line break inside a string literal is dropped from its value, and the
      token is attributed to the line of the closing quote. */
  lemma MultiLineString()
    ensures Scan("\"a\nb\"") == Outcome([Token(String("ab"), 2), Token(Eof, 0)], None)
  {
    var src := "\"a\nb\"";
    MultiLineLiteral();
    assert Dispatch(src, Position(0, 1)) == StringStep(src, Position(1, 1));
    assert ScanFrom(src, Position(5, 2)) == Outcome([], None);
    assert ScanFrom(src, Position(0, 1)) == Outcome([Token(String("ab"), 2)], None);
  }

  lemma MultiLineLiteral()
    ensures StringLiteral("\"a\nb\"", Position(1, 1)) == Ok(Literal("ab", Position(5, 2)))
  {
    var src := "\"a\nb\"";
    assert src[1..4] == "a\nb";
    assert '"' !in src[1..4];
    StringLiteralCloses(src, Position(1, 1), 4);
    TwoLineText();
  }

  lemma TwoLineText()
    ensures Newlines("a\nb") == 1 && DropNewlines("a\nb") == "ab"
  {
    var a, an := ['a'], ['a', '\n'];
    NewlinesSnoc([], 'a');
    NewlinesSnoc(a, '\n');
    NewlinesSnoc(an, 'b');
    assert [] + ['a'] == a && a + ['\n'] == an && an + ['b'] == "a\nb";
  }
}
