/** Properties of the scanner specification in module Lexing: how the line
    counter moves, maximal munch, what each sub-scanner consumes, what is
    skipped, and how an error ends the scan. */
module ScannerProperties {

  import opened Errors
  import opened Tokens
  import opened Lexing

  /** A string literal, closed or not, moves the line counter by the line
      breaks it consumes. */
  lemma StringLineCount(src: string, at: Position)
    requires at.pos < |src| && src[at.pos] == '"'
    ensures var d := Dispatch(src, at);
      d.after.line == at.line + Newlines(src[at.pos..d.after.pos])
  {
    var next := at.pos + 1;
    var d := Dispatch(src, at);
    assert d == StringStep(src, Position(next, at.line));
    StringStepLines(src, Position(next, at.line));
    assert src[at.pos..next] == ['"'];
    NewlinesAbsent(['"']);
    NewlinesSplit(src, at.pos, next, d.after.pos);
  }

  /** The line counter advances by exactly the line breaks a step consumes,
      except after a number, identifier or keyword: the character that ends
      such a word is consumed and dropped, so a line break there is not
      counted. */
  lemma DispatchLineCount(src: string, at: Position)
    requires at.pos < |src|
    ensures var d := Dispatch(src, at);
      if d.result.Ok? && d.result.value.Tok? && IsWord(d.result.value.token.kind)
      then d.after.line == at.line
      else d.after.line == at.line + Newlines(src[at.pos..d.after.pos])
  {
    var d := Dispatch(src, at);
    var c, next := src[at.pos], at.pos + 1;
    if c == '"' {
      StringLineCount(src, at);
    } else if IsDigit(c) || IsAlphabetic(c) {
    } else if d.after.pos == next {
      assert src[at.pos..d.after.pos] == [c];
      if c == '\n' {
        assert Newlines([c]) == Newlines([]) + 1;
      } else {
        NewlinesAbsent([c]);
      }
    } else {
      assert src[at.pos..d.after.pos] == [c, src[next]];
      NewlinesAbsent([c, src[next]]);
    }
  }

  /** No token, and no error, is attributed to a line past the last line
      break of the input. */
  lemma {:induction false} ScanFromLinesBounded(src: string, at: Position)
    requires at.pos <= |src|
    ensures var r := ScanFrom(src, at);
      (forall t :: t in r.tokens ==> t.line <= at.line + Newlines(src[at.pos..])) &&
      (r.diagnostic.Some? ==> r.diagnostic.value.line <= at.line + Newlines(src[at.pos..]))
    decreases |src| - at.pos
  {
    if at.pos < |src| {
      var d := Dispatch(src, at);
      DispatchLineCount(src, at);
      NewlinesSuffix(src, at.pos, d.after.pos);
      match d.result
      case Err(e) =>
      case Ok(Tok(t)) =>
        ScanFromLinesBounded(src, d.after);
      case Ok(Comment) =>
        var resume := CommentEnd(src, d.after);
        NewlinesSuffix(src, d.after.pos, resume.pos);
        ScanFromLinesBounded(src, resume);
        assert ScanFrom(src, at) == ScanFrom(src, resume);
      case Ok(Whitespace) =>
        ScanFromLinesBounded(src, d.after);
        assert ScanFrom(src, at) == ScanFrom(src, d.after);
    }
  }

  /** Every token before the end-of-input token lies on a line between 1 and
      one more than the number of line breaks in the input. */
  lemma ScanLinesBounded(src: string)
    ensures var r := Scan(src);
      forall i :: 0 <= i < |r.tokens| - 1 ==> 1 <= r.tokens[i].line <= 1 + Newlines(src)
  {
    var o := ScanFrom(src, Position(0, 1));
    ScanFromLinesBounded(src, Position(0, 1));
    assert src[0..] == src;
    assert forall i :: 0 <= i < |o.tokens| ==> o.tokens[i] in o.tokens;
  }

  /** Maximal munch: `!`, `=`, `<` and `>` take the following `=` into a
      two-character operator exactly when it is there. */
  lemma OperatorMaximalMunch(src: string, at: Position)
    requires at.pos < |src| && src[at.pos] in "!=<>"
    ensures var two := NextIs(src, at.pos + 1, '=');
      Dispatch(src, at) == Emit(
        match src[at.pos]
        case '!' => if two then BangEqual else Bang
        case '=' => if two then EqualEqual else Equal
        case '<' => if two then LessEqual else Less
        case _ => if two then GreaterEqual else Greater,
        at.line,
        if two then at.pos + 2 else at.pos + 1)
  {
  }

  /** `//` starts a comment, which is skipped through the next line break;
      a lone `/` is the division operator. */
  lemma SlashOrComment(src: string, at: Position)
    requires at.pos < |src| && src[at.pos] == '/'
    ensures NextIs(src, at.pos + 1, '/') ==>
      ScanFrom(src, at) == ScanFrom(src, CommentEnd(src, Position(at.pos + 2, at.line)))
    ensures !NextIs(src, at.pos + 1, '/') ==>
      Dispatch(src, at) == Emit(Slash, at.line, at.pos + 1)
  {
    if NextIs(src, at.pos + 1, '/') {
      assert Dispatch(src, at) == Dispatched(Ok(Comment), Position(at.pos + 2, at.line));
    }
  }

  /** A string literal runs to the first quote after the opening one; its
      value is what lies between with the line breaks left out, and its token
      is attributed to the line reached after the closing quote. Without a
      closing quote the whole input is consumed and the scan fails with
      "Unterminated string.". */
  lemma StringToken(src: string, at: Position)
    requires at.pos < |src| && src[at.pos] == '"'
    ensures var d := Dispatch(src, at);
      (d.result.Ok? ==>
        var close := d.after.pos - 1;
        at.pos < close && src[close] == '"' && '"' !in src[at.pos + 1..close] &&
        d.result.value == Tok(Token(String(DropNewlines(src[at.pos + 1..close])), d.after.line))) &&
      (d.result.Err? ==>
        d.after.pos == |src| && '"' !in src[at.pos + 1..] &&
        d.result.error == Error(d.after.line, UnterminatedString))
  {
    assert Dispatch(src, at) == StringStep(src, Position(at.pos + 1, at.line));
    StringLiteralMeaning(src, Position(at.pos + 1, at.line));
  }

  /** An identifier or keyword is the leading letter plus the maximal run of
      letters and digits after it; the character ending the run is consumed
      too, and a line break there is not counted. */
  lemma IdentifierToken(src: string, at: Position, e: nat)
    requires at.pos < e <= |src| && IsAlphabetic(src[at.pos])
    requires forall k :: at.pos < k < e ==> IsAlphanumeric(src[k])
    requires e < |src| ==> !IsAlphanumeric(src[e])
    ensures Dispatch(src, at) ==
      Emit(KeywordOrIdentifier(src[at.pos..e]), at.line, if e < |src| then e + 1 else e)
  {
    RunEndUnique(src, at.pos + 1, IsAlphanumeric, e);
    assert [src[at.pos]] + src[at.pos + 1..e] == src[at.pos..e];
    assert Dispatch(src, at) ==
      Emit(KeywordOrIdentifier([src[at.pos]] + src[at.pos + 1..e]), at.line, Past(src, e));
  }

  /** A number is the leading digit plus the maximal run of digits and dots
      after it; the character ending the run is consumed too. */
  lemma NumberToken(src: string, at: Position, e: nat)
    requires at.pos < e <= |src| && IsDigit(src[at.pos])
    requires forall k :: at.pos < k < e ==> IsNumberPart(src[k])
    requires e < |src| ==> !IsNumberPart(src[e])
    ensures Dispatch(src, at) ==
      Emit(Number(src[at.pos..e]), at.line, if e < |src| then e + 1 else e)
  {
    RunEndUnique(src, at.pos + 1, IsNumberPart, e);
    assert [src[at.pos]] + src[at.pos + 1..e] == src[at.pos..e];
    assert Dispatch(src, at) == Emit(Number([src[at.pos]] + src[at.pos + 1..e]), at.line, Past(src, e));
  }

  /** A character that starts no token stops the scan: nothing more is
      emitted, and the error is "Unexpected character" on the current line. */
  lemma UnexpectedCharacterStops(src: string, at: Position)
    requires at.pos < |src| && !IsRecognized(src[at.pos])
    ensures ScanFrom(src, at) == Outcome([], Some(Error(at.line, UnexpectedCharacter)))
  {
  }

  /** An error ends the scan where it occurs: the tokens are those emitted
      before it, and no step runs after it. */
  lemma ErrorEndsScan(src: string, at: Position)
    requires at.pos < |src| && Dispatch(src, at).result.Err?
    ensures ScanFrom(src, at) == Outcome([], Some(Dispatch(src, at).result.error))
  {
  }

  /** A piece of input that produces no token: one whitespace character, or
      a line comment with or without its closing line break. */
  datatype Trivia = Blank(c: char) | LineComment(text: string, terminated: bool)

  function TriviaText(u: Trivia): string
  {
    match u
    case Blank(c) => [c]
    case LineComment(text, terminated) => "//" + text + (if terminated then "\n" else "")
  }

  function Render(units: seq<Trivia>): string
  {
    if units == [] then [] else TriviaText(units[0]) + Render(units[1..])
  }

  /** Blanks are whitespace, comment text holds no line break, and only the
      last comment may run to the end of the input. */
  predicate WellFormed(units: seq<Trivia>)
  {
    forall i :: 0 <= i < |units| ==>
      match units[i]
      case Blank(c) => c in " \r\t\n"
      case LineComment(text, terminated) => '\n' !in text && (!terminated ==> i == |units| - 1)
  }

  /** One blank is skipped, counting a line break. */
  lemma BlankSkipped(src: string, at: Position)
    requires at.pos < |src| && src[at.pos] in " \r\t\n"
    ensures ScanFrom(src, at) ==
      ScanFrom(src, Position(at.pos + 1, if src[at.pos] == '\n' then at.line + 1 else at.line))
  {
    var after := Position(at.pos + 1, if src[at.pos] == '\n' then at.line + 1 else at.line);
    assert Dispatch(src, at) == Dispatched(Ok(Whitespace), after);
  }

  /** A line comment whose text holds no line break is skipped together with
      the line break that ends it, if any. */
  lemma CommentSkipped(src: string, at: Position, end: nat)
    requires at.pos + 2 <= end <= |src|
    requires src[at.pos] == '/' && src[at.pos + 1] == '/' && '\n' !in src[at.pos + 2..end]
    requires end < |src| ==> src[end] == '\n'
    ensures end < |src| ==> ScanFrom(src, at) == ScanFrom(src, Position(end + 1, at.line + 1))
    ensures end == |src| ==> ScanFrom(src, at) == Outcome([], None)
  {
    var start := at.pos + 2;
    assert Dispatch(src, at) == Dispatched(Ok(Comment), Position(start, at.line));
    forall k | start <= k < end ensures src[k] != '\n' {
      assert src[k] == src[start..end][k - start];
    }
    FindFromUnique(src, start, '\n', end);
    if end < |src| {
      assert CommentEnd(src, Position(start, at.line)) == Position(end + 1, at.line + 1);
    } else {
      assert CommentEnd(src, Position(start, at.line)) == Position(end, at.line);
    }
  }

  lemma {:induction false} TriviaScansToNothing(src: string, at: Position, units: seq<Trivia>)
    requires WellFormed(units) && at.pos <= |src| && src[at.pos..] == Render(units)
    ensures ScanFrom(src, at) == Outcome([], None)
    decreases |units|
  {
    if units == [] {
      assert |src[at.pos..]| == 0;
    } else {
      var u, rest := units[0], units[1..];
      FirstUnit(src, at, units);
      match u
      case Blank(c) =>
        BlankSkipped(src, at);
        TriviaScansToNothing(src, Position(at.pos + 1, if c == '\n' then at.line + 1 else at.line), rest);
      case LineComment(text, terminated) =>
        var end := at.pos + 2 + |text|;
        CommentSkipped(src, at, end);
        if terminated {
          var next := Position(end + 1, at.line + 1);
          assert src[next.pos..] == Render(rest);
          TriviaScansToNothing(src, next, rest);
        }
    }
  }

  /** Where the first unit of rendered trivia lies in the input, and what
      follows it. */
  lemma FirstUnit(src: string, at: Position, units: seq<Trivia>)
    requires WellFormed(units) && units != [] && at.pos <= |src| && src[at.pos..] == Render(units)
    ensures WellFormed(units[1..])
    ensures units[0].Blank? ==>
      at.pos < |src| && src[at.pos] == units[0].c && src[at.pos] in " \r\t\n" &&
      src[at.pos + 1..] == Render(units[1..])
    ensures units[0].LineComment? ==>
      var text := units[0].text;
      at.pos + 2 + |text| <= |src| &&
      src[at.pos] == '/' && src[at.pos + 1] == '/' && '\n' !in src[at.pos + 2..at.pos + 2 + |text|] &&
      (units[0].terminated ==>
        at.pos + 2 + |text| < |src| && src[at.pos + 2 + |text|] == '\n' &&
        src[at.pos + 3 + |text|..] == Render(units[1..])) &&
      (!units[0].terminated ==> at.pos + 2 + |text| == |src| && |units| == 1)
  {
    var u, rest := units[0], units[1..];
    assert WellFormed(rest) by {
      forall i | 0 <= i < |rest| ensures rest[i] == units[i + 1] { }
    }
    var s := src[at.pos..];
    assert s == TriviaText(u) + Render(rest);
    match u
    case Blank(c) =>
      assert src[at.pos] == s[0] == c;
      assert src[at.pos + 1..] == s[1..] == Render(rest);
    case LineComment(text, terminated) =>
      CommentLayout(src, at, text, terminated, Render(rest));
  }

  /** Where the characters of a rendered line comment lie in the input. */
  lemma CommentLayout(src: string, at: Position, text: string, terminated: bool, tail: string)
    requires at.pos <= |src| && '\n' !in text
    requires src[at.pos..] == TriviaText(LineComment(text, terminated)) + tail
    requires !terminated ==> tail == []
    ensures at.pos + 2 + |text| <= |src|
    ensures src[at.pos] == '/' && src[at.pos + 1] == '/' && '\n' !in src[at.pos + 2..at.pos + 2 + |text|]
    ensures terminated ==>
      at.pos + 2 + |text| < |src| && src[at.pos + 2 + |text|] == '\n' &&
      src[at.pos + 3 + |text|..] == tail
    ensures !terminated ==> at.pos + 2 + |text| == |src|
  {
    var s := src[at.pos..];
    var nl: string := if terminated then "\n" else "";
    assert s == "//" + text + nl + tail;
    assert src[at.pos] == s[0] && src[at.pos + 1] == s[1];
    assert src[at.pos + 2..at.pos + 2 + |text|] == text by {
      forall k | 0 <= k < |text| ensures src[at.pos + 2 + k] == text[k] {
        assert src[at.pos + 2 + k] == s[2 + k];
      }
    }
    if terminated {
      assert src[at.pos + 2 + |text|] == '\n' by {
        assert src[at.pos + 2 + |text|] == s[2 + |text|];
      }
      assert src[at.pos + 3 + |text|..] == tail by {
        forall k | 0 <= k < |tail| ensures src[at.pos + 3 + |text| + k] == tail[k] {
          assert src[at.pos + 3 + |text| + k] == s[3 + |text| + k];
        }
      }
    }
  }

  /** Input made only of whitespace and line comments scans to the
      end-of-input token alone. */
  lemma TriviaOnlyYieldsEof(units: seq<Trivia>)
    requires WellFormed(units)
    ensures Scan(Render(units)) == Outcome([Token(Eof, 0)], None)
  {
    var src := Render(units);
    assert src[0..] == src;
    TriviaScansToNothing(src, Position(0, 1), units);
  }
}
