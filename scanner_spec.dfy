/** The behaviour of the Lox scanner as pure functions of the source text and
    a cursor position, together with the properties proved about it. The
    imperative scanner in module Scanner is proved to compute exactly these
    functions. */
module Lexing {

  import opened Errors
  import opened Tokens

  const UnexpectedCharacter: string := "Unexpected character"
  const UnterminatedString: string := "Unterminated string."

  // Character classes, restricted to ASCII.

  predicate IsDigit(c: char) { '0' <= c <= '9' }

  predicate IsAlphabetic(c: char) { 'a' <= c <= 'z' || 'A' <= c <= 'Z' }

  predicate IsAlphanumeric(c: char) { IsDigit(c) || IsAlphabetic(c) }

  /** The characters that continue a number literal. */
  predicate IsNumberPart(c: char) { IsDigit(c) || c == '.' }

  /** The characters the dispatcher knows how to start a token (or skip) with. */
  predicate IsRecognized(c: char)
  {
    c in "(){},.-+;*!=<>/ \r\t\n\"" || IsDigit(c) || IsAlphabetic(c)
  }

  /** Lexemes that end up as a word-like token: numbers, identifiers, keywords. */
  predicate IsWord(kind: TokenType)
  {
    kind.Number? || kind.Identifier? || IsKeyword(kind)
  }

  /** The number of line breaks in `s`. */
  function Newlines(s: string): nat
  {
    if s == [] then 0 else Newlines(s[..|s| - 1]) + if s[|s| - 1] == '\n' then 1 else 0
  }

  /** Line breaks are counted piecewise over a concatenation. */
  lemma {:induction false} NewlinesAppend(a: string, b: string)
    ensures Newlines(a + b) == Newlines(a) + Newlines(b)
    decreases |b|
  {
    if b == [] {
      assert a + b == a;
    } else {
      var init := b[..|b| - 1];
      assert (a + b)[..|a + b| - 1] == a + init;
      assert (a + b)[|a + b| - 1] == b[|b| - 1];
      NewlinesAppend(a, init);
    }
  }

  /** Text without a line break has none to count. */
  lemma {:induction false} NewlinesAbsent(s: string)
    requires '\n' !in s
    ensures Newlines(s) == 0
    decreases |s|
  {
    if s != [] {
      NewlinesAbsent(s[..|s| - 1]);
    }
  }

  /** Where the scanner stands: the index of the next unconsumed character
      and the current line number. */
  datatype Position = Position(pos: nat, line: nat)

  /** What one dispatch step recognised. */
  datatype Scanned = Tok(token: Token) | Comment | Whitespace

  /** The result of one dispatch step and the position it leaves behind. */
  datatype Dispatched = Dispatched(result: Result<Scanned>, after: Position)

  /** The scanned string literal's value and the position after its closing quote. */
  datatype Literal = Literal(value: string, after: Position)

  /** What a scan returns: the tokens, and the error that stopped it, if any. */
  datatype Outcome = Outcome(tokens: seq<Token>, diagnostic: Option<Error>)

  /** `s` with its line breaks left out, everything else in order. */
  function DropNewlines(s: string): string
  {
    if s == [] then []
    else
      var last := s[|s| - 1];
      DropNewlines(s[..|s| - 1]) + if last == '\n' then [] else [last]
  }

  /** Dropping line breaks keeps every other character, as often as it
      occurs, and changes nothing in text without line breaks. */
  lemma {:induction false} DropNewlinesContents(s: string)
    ensures multiset(DropNewlines(s)) == multiset(s)['\n' := 0]
    ensures Newlines(s) == 0 ==> DropNewlines(s) == s
  {
    if s != [] {
      var init, last := s[..|s| - 1], s[|s| - 1];
      assert s == init + [last];
      DropNewlinesContents(init);
    }
  }

  /** Appending one character: a line break is counted and dropped, any
      other character is kept. */
  lemma NewlinesSnoc(s: string, c: char)
    ensures Newlines(s + [c]) == Newlines(s) + (if c == '\n' then 1 else 0)
    ensures DropNewlines(s + [c]) == DropNewlines(s) + (if c == '\n' then [] else [c])
  {
    assert (s + [c])[..|s|] == s;
  }

  /** The index of the first `c` at or after `i`, or `|src|` if there is none. */
  function FindFrom(src: string, i: nat, c: char): (j: nat)
    requires i <= |src|
    ensures i <= j <= |src|
    ensures j < |src| ==> src[j] == c
    ensures forall k :: i <= k < j ==> src[k] != c
    decreases |src| - i
  {
    if i == |src| || src[i] == c then i else FindFrom(src, i + 1, c)
  }

  /** The end of the maximal run of `p`-characters that starts at `i`. */
  function RunEnd(src: string, i: nat, p: char -> bool): (j: nat)
    requires i <= |src|
    ensures i <= j <= |src|
    ensures forall k :: i <= k < j ==> p(src[k])
    ensures j < |src| ==> !p(src[j])
    decreases |src| - i
  {
    if i == |src| || !p(src[i]) then i else RunEnd(src, i + 1, p)
  }

  lemma {:induction false} FindFromUnique(src: string, i: nat, c: char, j: nat)
    requires i <= j <= |src|
    requires j < |src| ==> src[j] == c
    requires forall k :: i <= k < j ==> src[k] != c
    ensures FindFrom(src, i, c) == j
    decreases j - i
  {
    if i < j {
      FindFromUnique(src, i + 1, c, j);
    }
  }

  lemma {:induction false} RunEndUnique(src: string, i: nat, p: char -> bool, j: nat)
    requires i <= j <= |src|
    requires j < |src| ==> !p(src[j])
    requires forall k :: i <= k < j ==> p(src[k])
    ensures RunEnd(src, i, p) == j
    decreases j - i
  {
    if i < j {
      RunEndUnique(src, i + 1, p, j);
    }
  }

  /** `Peekable::take_while` pulls the first character that fails its
      predicate out of the iterator and drops it: the cursor ends one past the
      run unless the run reached the end of the input. */
  function Past(src: string, e: nat): (r: nat)
    ensures e <= r <= e + 1
    ensures r == e + 1 <==> e < |src|
  {
    if e < |src| then e + 1 else e
  }

  /** The lookahead test: the next character exists and is `expected`. */
  function NextIs(src: string, p: nat, expected: char): bool
  {
    p < |src| && src[p] == expected
  }

  lemma NewlinesSplit(src: string, a: nat, b: nat, c: nat)
    requires a <= b <= c <= |src|
    ensures Newlines(src[a..c]) == Newlines(src[a..b]) + Newlines(src[b..c])
  {
    assert src[a..c] == src[a..b] + src[b..c];
    NewlinesAppend(src[a..b], src[b..c]);
  }

  /** Where skipping a line comment stops: just past the next line break,
      which is counted, or at the end of the input. */
  function CommentEnd(src: string, at: Position): (r: Position)
    requires at.pos <= |src|
    ensures at.pos <= r.pos <= |src|
    ensures r.pos < |src| ==> at.pos < r.pos && src[r.pos - 1] == '\n'
    ensures forall k :: at.pos <= k < r.pos - 1 ==> src[k] != '\n'
    ensures r.line == at.line + Newlines(src[at.pos..r.pos]) <= at.line + 1
  {
    var j := FindFrom(src, at.pos, '\n');
    assert '\n' !in src[at.pos..j];
    NewlinesAbsent(src[at.pos..j]);
    if j < |src| then
      assert src[at.pos..j + 1] == src[at.pos..j] + ['\n'];
      assert src[at.pos..j + 1][..j - at.pos] == src[at.pos..j];
      Position(j + 1, at.line + 1)
    else
      Position(|src|, at.line)
  }

  /** The string literal whose opening quote has been consumed, or the
      "Unterminated string." error on the line reached at the end of input. */
  function StringLiteral(src: string, at: Position): (r: Result<Literal>)
    requires at.pos <= |src|
    ensures r.Ok? ==> at.pos < r.value.after.pos <= |src| && at.line <= r.value.after.line
    ensures r.Err? ==> r.error.message == UnterminatedString && at.line <= r.error.line
  {
    var close := FindFrom(src, at.pos, '"');
    if close == |src| then
      Err(Error(at.line + Newlines(src[at.pos..]), UnterminatedString))
    else
      Ok(Literal(DropNewlines(src[at.pos..close]),
                 Position(close + 1, at.line + Newlines(src[at.pos..close]))))
  }

  /** A literal ends at the first quote after the opening one; its value is
      what lies between with the line breaks left out (see
      `DropNewlinesContents`), and its line is the
      opening line plus those line breaks. Without a closing quote the error
      carries the line reached at the end of the input. */
  lemma StringLiteralMeaning(src: string, at: Position)
    requires at.pos <= |src|
    ensures var r := StringLiteral(src, at);
      (r.Ok? ==>
        var close := r.value.after.pos - 1;
        at.pos <= close < |src| && src[close] == '"' && '"' !in src[at.pos..close] &&
        r.value.value == DropNewlines(src[at.pos..close]) &&
        r.value.after.line == at.line + Newlines(src[at.pos..close])) &&
      (r.Err? ==>
        '"' !in src[at.pos..] &&
        r.error == Error(at.line + Newlines(src[at.pos..]), UnterminatedString))
  {
    var close := FindFrom(src, at.pos, '"');
    var between := src[at.pos..close];
    assert '"' !in between by {
      forall i | 0 <= i < |between| ensures between[i] != '"' {
        assert between[i] == src[at.pos + i];
      }
    }
    if close < |src| {
      var lit := Literal(DropNewlines(between), Position(close + 1, at.line + Newlines(between)));
      assert StringLiteral(src, at) == Ok(lit);
      assert lit.after.pos - 1 == close;
    } else {
      assert src[at.pos..] == between;
    }
  }

  /** The step that scans a string literal whose opening quote has been
      consumed: the token takes the line reached after the closing quote, and
      an unterminated literal consumes the rest of the input. */
  function StringStep(src: string, start: Position): (d: Dispatched)
    requires start.pos <= |src|
    ensures d.result.Ok? ==> start.pos < d.after.pos <= |src|
    ensures d.result.Err? ==> d.after.pos == |src|
    ensures start.line <= d.after.line
    ensures d.result.Ok? ==>
      d.result.value.Tok? && d.result.value.token.kind.String? &&
      d.result.value.token.line == d.after.line
    ensures d.result.Err? ==> d.result.error == Error(d.after.line, UnterminatedString)
  {
    match StringLiteral(src, start)
    case Err(e) => Dispatched(Err(e), Position(|src|, e.line))
    case Ok(lit) => Dispatched(Ok(Tok(Token(String(lit.value), lit.after.line))), lit.after)
  }

  /** The line breaks of a suffix split at any point in it. */
  lemma NewlinesSuffix(src: string, a: nat, b: nat)
    requires a <= b <= |src|
    ensures Newlines(src[a..]) == Newlines(src[a..b]) + Newlines(src[b..])
  {
    assert src[a..] == src[a..|src|] && src[b..] == src[b..|src|];
    NewlinesSplit(src, a, b, |src|);
  }

  /** Scanning a string literal advances the line counter by exactly the
      line breaks it consumes, the closing quote included. */
  lemma StringStepLines(src: string, start: Position)
    requires start.pos <= |src|
    ensures var d := StringStep(src, start);
      start.pos <= d.after.pos && d.after.line == start.line + Newlines(src[start.pos..d.after.pos])
  {
    var close := FindFrom(src, start.pos, '"');
    if close < |src| {
      assert src[close..close + 1] == ['"'];
      NewlinesAbsent(['"']);
      NewlinesSplit(src, start.pos, close, close + 1);
    } else {
      assert src[start.pos..] == src[start.pos..|src|];
    }
  }

  /** The literal found once the first quote after `at.pos` is known. */
  lemma StringLiteralCloses(src: string, at: Position, close: nat)
    requires at.pos <= close < |src| && src[close] == '"' && '"' !in src[at.pos..close]
    ensures StringLiteral(src, at) ==
      Ok(Literal(DropNewlines(src[at.pos..close]), Position(close + 1, at.line + Newlines(src[at.pos..close]))))
  {
    assert FindFrom(src, at.pos, '"') == close by {
      forall k | at.pos <= k < close ensures src[k] != '"' {
        assert src[k] == src[at.pos..close][k - at.pos];
      }
      FindFromUnique(src, at.pos, '"', close);
    }
  }

  /** The error reported when no quote follows `at.pos`. */
  lemma StringLiteralUnterminated(src: string, at: Position)
    requires at.pos <= |src| && '"' !in src[at.pos..]
    ensures StringLiteral(src, at) ==
      Err(Error(at.line + Newlines(src[at.pos..|src|]), UnterminatedString))
  {
    assert FindFrom(src, at.pos, '"') == |src| by {
      forall k | at.pos <= k < |src| ensures src[k] != '"' {
        assert src[k] == src[at.pos..][k - at.pos];
      }
      FindFromUnique(src, at.pos, '"', |src|);
    }
    assert src[at.pos..] == src[at.pos..|src|];
  }

  function Emit(kind: TokenType, line: nat, pos: nat): Dispatched
  {
    Dispatched(Ok(Tok(Token(kind, line))), Position(pos, line))
  }

  /** A one-or-two-character operator: the two-character kind when the next
      character is `=` (which is then consumed), the one-character kind otherwise. */
  function Operator(src: string, next: nat, line: nat, two: TokenType, one: TokenType): (d: Dispatched)
    ensures d.result.Ok? && d.result.value.Tok? && d.result.value.token.line == line && d.after.line == line
    ensures next < |src| && src[next] == '=' ==>
      d.result.value.token.kind == two && d.after.pos == next + 1
    ensures !(next < |src| && src[next] == '=') ==>
      d.result.value.token.kind == one && d.after.pos == next
  {
    if NextIs(src, next, '=') then Emit(two, line, next + 1) else Emit(one, line, next)
  }

  /** Classifies the character at `at.pos` and consumes what belongs to it. */
  function Dispatch(src: string, at: Position): (d: Dispatched)
    requires at.pos < |src|
    ensures at.pos < d.after.pos <= |src|
    ensures at.line <= d.after.line
    ensures d.result.Ok? && d.result.value.Tok? ==>
      var t := d.result.value.token;
      t.kind != Eof && at.line <= t.line <= d.after.line
    ensures d.result.Err? ==>
      d.result.error.line == d.after.line &&
      d.result.error.message in {UnexpectedCharacter, UnterminatedString}
  {
    var c, next, line := src[at.pos], at.pos + 1, at.line;
    match c
    case '(' => Emit(LeftParen, line, next)
    case ')' => Emit(RightParen, line, next)
    case '{' => Emit(LeftBrace, line, next)
    case '}' => Emit(RightBrace, line, next)
    case ',' => Emit(Comma, line, next)
    case '.' => Emit(Dot, line, next)
    case '-' => Emit(Minus, line, next)
    case '+' => Emit(Plus, line, next)
    case ';' => Emit(Semicolon, line, next)
    case '*' => Emit(Star, line, next)
    case '!' => Operator(src, next, line, BangEqual, Bang)
    case '=' => Operator(src, next, line, EqualEqual, Equal)
    case '<' => Operator(src, next, line, LessEqual, Less)
    case '>' => Operator(src, next, line, GreaterEqual, Greater)
    case '/' =>
      if NextIs(src, next, '/') then Dispatched(Ok(Comment), Position(next + 1, line))
      else Emit(Slash, line, next)
    case ' ' => Dispatched(Ok(Whitespace), Position(next, line))
    case '\r' => Dispatched(Ok(Whitespace), Position(next, line))
    case '\t' => Dispatched(Ok(Whitespace), Position(next, line))
    case '\n' => Dispatched(Ok(Whitespace), Position(next, line + 1))
    case '"' => StringStep(src, Position(next, line))
    case _ =>
      if IsDigit(c) then
        var e := RunEnd(src, next, IsNumberPart);
        Emit(Number([c] + src[next..e]), line, Past(src, e))
      else if IsAlphabetic(c) then
        var e := RunEnd(src, next, IsAlphanumeric);
        Emit(KeywordOrIdentifier([c] + src[next..e]), line, Past(src, e))
      else
        Dispatched(Err(Error(line, UnexpectedCharacter)), Position(next, line))
  }

  /** The tokens scanned from `at` to the end of the input, stopping at the
      first error. */
  function ScanFrom(src: string, at: Position): (r: Outcome)
    requires at.pos <= |src|
    ensures forall t :: t in r.tokens ==> t.kind != Eof && at.line <= t.line
    ensures forall i, j :: 0 <= i < j < |r.tokens| ==> r.tokens[i].line <= r.tokens[j].line
    ensures r.diagnostic.Some? ==>
      var e := r.diagnostic.value;
      at.line <= e.line && e.message in {UnexpectedCharacter, UnterminatedString} &&
      forall t :: t in r.tokens ==> t.line <= e.line
    decreases |src| - at.pos
  {
    if at.pos == |src| then Outcome([], None)
    else
      var d := Dispatch(src, at);
      match d.result
      case Err(e) => Outcome([], Some(e))
      case Ok(Tok(t)) =>
        var rest := ScanFrom(src, d.after);
        Outcome([t] + rest.tokens, rest.diagnostic)
      case Ok(Comment) => ScanFrom(src, CommentEnd(src, d.after))
      case Ok(Whitespace) => ScanFrom(src, d.after)
  }

  /** How the scan from a position continues once its first step is known. */
  lemma ScanFromStep(src: string, at: Position, r: Result<Scanned>, after: Position)
    requires at.pos < |src| && Dispatch(src, at) == Dispatched(r, after)
    ensures after.pos <= |src|
    ensures ScanFrom(src, at) ==
      match r
      case Err(e) => Outcome([], Some(e))
      case Ok(Tok(t)) => Outcome([t] + ScanFrom(src, after).tokens, ScanFrom(src, after).diagnostic)
      case Ok(Comment) => ScanFrom(src, CommentEnd(src, after))
      case Ok(Whitespace) => ScanFrom(src, after)
  {
  }

  /** A whole scan: the tokens from line 1, then one end-of-input token on
      line 0, whether or not an error stopped the scan early. */
  function Scan(src: string): (r: Outcome)
    ensures |r.tokens| >= 1 && r.tokens[|r.tokens| - 1] == Token(Eof, 0)
    ensures forall i :: 0 <= i < |r.tokens| - 1 ==> r.tokens[i].kind != Eof && r.tokens[i].line >= 1
    ensures r.diagnostic.Some? ==>
      r.diagnostic.value.line >= 1 &&
      r.diagnostic.value.message in {UnexpectedCharacter, UnterminatedString}
  {
    var o := ScanFrom(src, Position(0, 1));
    assert forall i :: 0 <= i < |o.tokens| ==> o.tokens[i] in o.tokens;
    Outcome(o.tokens + [Token(Eof, 0)], o.diagnostic)
  }
}
