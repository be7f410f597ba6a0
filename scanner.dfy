/** The imperative scanner: a cursor over the source text that the dispatcher
    and its sub-scanners advance in place, and the main loop that collects
    tokens. Every method is proved to compute what module Lexing specifies. */
module Scanner {

  import opened Errors
  import opened Tokens
  import opened Lexing

  /** The peekable character iterator together with the line counter that
      the scanning routines share and update. */
  class Cursor {
    const source: string
    var pos: nat
    var line: nat

    ghost predicate Valid()
      reads this
    {
      pos <= |source|
    }

    /** The cursor's state as a specification position. */
    function At(): Position
      reads this
    {
      Position(pos, line)
    }

    constructor (source: string)
      ensures Valid() && this.source == source && At() == Position(0, 1)
    {
      this.source := source;
      pos := 0;
      line := 1;
    }

    /** The next character, without consuming it. */
    function Peek(): (c: Option<char>)
      reads this
      requires Valid()
      ensures c.Some? <==> pos < |source|
      ensures c.Some? ==> c.value == source[pos]
    {
      if pos < |source| then Some(source[pos]) else None
    }

    /** Consumes and returns the next character, if any. */
    method Next() returns (c: Option<char>)
      requires Valid()
      modifies this`pos
      ensures Valid()
      ensures c == old(Peek())
      ensures pos == if c.Some? then old(pos) + 1 else old(pos)
    {
      c := Peek();
      if c.Some? {
        pos := pos + 1;
      }
    }

    /** Consumes the next character only when it is `expected`. */
    method Matches(expected: char) returns (matched: bool)
      requires Valid()
      modifies this`pos
      ensures Valid()
      ensures matched == NextIs(source, old(pos), expected)
      ensures pos == if matched then old(pos) + 1 else old(pos)
    {
      if Peek() == Some(expected) {
        var _ := Next();
        return true;
      }
      return false;
    }

    /** Skips the rest of a line comment, through the next line break. */
    method ConsumeLine()
      requires Valid()
      modifies this`pos, this`line
      ensures Valid()
      ensures At() == CommentEnd(source, old(At()))
    {
      while true
        invariant Valid() && old(pos) <= pos && line == old(line)
        invariant forall k :: old(pos) <= k < pos ==> source[k] != '\n'
        decreases |source| - pos
      {
        var c := Next();
        match c
        case None =>
          FindFromUnique(source, old(pos), '\n', pos);
          return;
        case Some(ch) =>
          if ch == '\n' {
            FindFromUnique(source, old(pos), '\n', pos - 1);
            line := line + 1;
            return;
          }
      }
    }

    /** `take_while` on the iterator: the maximal run of `p`-characters, with
        the character that ends the run consumed and dropped. */
    method TakeWhile(p: char -> bool) returns (run: string)
      requires Valid()
      modifies this`pos
      ensures Valid()
      ensures var e := RunEnd(source, old(pos), p);
        run == source[old(pos)..e] && pos == Past(source, e)
    {
      run := [];
      while true
        invariant Valid() && old(pos) <= pos
        invariant run == source[old(pos)..pos]
        invariant forall k :: old(pos) <= k < pos ==> p(source[k])
        decreases |source| - pos
      {
        var c := Next();
        match c
        case None =>
          RunEndUnique(source, old(pos), p, pos);
          return;
        case Some(ch) =>
          if p(ch) {
            run := run + [ch];
          } else {
            RunEndUnique(source, old(pos), p, pos - 1);
            return;
          }
      }
    }

    /** The loop of the string scanner: reads up to and including the closing
        quote, or to the end of the input. Line breaks are counted and left out
        of `value`; `seen` is the text read before the quote. */
    method ReadString() returns (value: string, closed: bool, ghost seen: string)
      requires Valid()
      modifies this`pos, this`line
      ensures Valid() && old(pos) + |seen| <= |source|
      ensures seen == source[old(pos)..old(pos) + |seen|] && '"' !in seen
      ensures value == DropNewlines(seen) && line == old(line) + Newlines(seen)
      ensures closed ==> pos == old(pos) + |seen| + 1 && source[pos - 1] == '"'
      ensures !closed ==> pos == old(pos) + |seen| == |source|
    {
      value := "";
      seen := [];
      closed := false;
      ghost var start := pos;
      while true
        invariant Valid() && start <= pos && pos == start + |seen|
        invariant seen == source[start..pos] && '"' !in seen
        invariant value == DropNewlines(seen)
        invariant line == old(line) + Newlines(seen)
        decreases |source| - pos
      {
        var c := Next();
        if c.None? {
          break;
        }
        var ch := c.value;
        if ch == '"' {
          closed := true;
          break;
        }
        assert source[start..pos] == seen + [ch];
        NewlinesSnoc(seen, ch);
        seen := seen + [ch];
        if ch == '\n' {
          line := line + 1;
        } else {
          value := value + [ch];
        }
      }
    }

    /** Scans a string literal whose opening quote was consumed. Line breaks
        inside it are counted and left out of the value. */
    method ScanString() returns (r: Result<string>)
      requires Valid()
      modifies this`pos, this`line
      ensures Valid()
      ensures match StringLiteral(source, Position(old(pos), old(line)))
        case Ok(lit) => r == Ok(lit.value) && pos == lit.after.pos && line == lit.after.line
        case Err(e) => r == Err(e) && pos == |source| && line == e.line
    {
      ghost var start, line0 := pos, line;
      var value, closed, seen := ReadString();
      if !closed {
        assert source[start..] == seen;
        StringLiteralUnterminated(source, Position(start, line0));
        return Err(Error(line, UnterminatedString));
      }
      StringLiteralCloses(source, Position(start, line0), pos - 1);
      return Ok(value);
    }

    /** Scans a number literal whose leading digit was consumed; the token
        carries the lexeme. */
    method ScanNumber(first: char) returns (lexeme: string)
      requires Valid()
      modifies this`pos
      ensures Valid()
      ensures var e := RunEnd(source, old(pos), IsNumberPart);
        lexeme == [first] + source[old(pos)..e] && pos == Past(source, e)
    {
      var whole := TakeWhile(IsNumberPart);
      lexeme := [first] + whole;
    }

    /** Scans an identifier or reserved word whose first letter was consumed. */
    method ScanIdentifier(first: char) returns (token: Token)
      requires Valid()
      modifies this`pos
      ensures Valid()
      ensures var e := RunEnd(source, old(pos), IsAlphanumeric);
        token == Token(KeywordOrIdentifier([first] + source[old(pos)..e]), line) &&
        pos == Past(source, e)
    {
      var rest := TakeWhile(IsAlphanumeric);
      token := Token(KeywordOrIdentifier([first] + rest), line);
    }

    /** Consumes one character and classifies it, consuming whatever else
        belongs to the token it starts. */
    method ScanToken() returns (r: Result<Scanned>)
      requires Valid() && pos < |source|
      modifies this`pos, this`line
      ensures Valid()
      ensures Dispatch(source, old(At())) == Dispatched(r, At())
    {
      var next := Next();
      var c := next.value;
      var kind: TokenType;
      match c {
      case '(' => kind := LeftParen;
      case ')' => kind := RightParen;
      case '{' => kind := LeftBrace;
      case '}' => kind := RightBrace;
      case ',' => kind := Comma;
      case '.' => kind := Dot;
      case '-' => kind := Minus;
      case '+' => kind := Plus;
      case ';' => kind := Semicolon;
      case '*' => kind := Star;
      case '!' =>
        var two := Matches('=');
        kind := if two then BangEqual else Bang;
      case '=' =>
        var two := Matches('=');
        kind := if two then EqualEqual else Equal;
      case '<' =>
        var two := Matches('=');
        kind := if two then LessEqual else Less;
      case '>' =>
        var two := Matches('=');
        kind := if two then GreaterEqual else Greater;
      case '/' =>
        var comment := Matches('/');
        if comment {
          return Ok(Comment);
        }
        kind := Slash;
      case ' ' => return Ok(Whitespace);
      case '\r' => return Ok(Whitespace);
      case '\t' => return Ok(Whitespace);
      case '\n' =>
        line := line + 1;
        return Ok(Whitespace);
      case '"' =>
        var s := ScanString();
        if s.Err? {
          return Err(s.error);
        }
        // the token takes the line reached after the closing quote
        kind := String(s.value);
      case _ =>
        if IsDigit(c) {
          var lexeme := ScanNumber(c);
          kind := Number(lexeme);
        } else if IsAlphabetic(c) {
          var token := ScanIdentifier(c);
          return Ok(Tok(token));
        } else {
          return Err(Error(line, UnexpectedCharacter));
        }
      }
      r := Ok(Tok(Token(kind, line)));
    }
  }

  /** The scanner's entry point: the tokens of `source`, ending with the
      end-of-input token, and the error that stopped the scan, if any (the
      source prints it to standard error). */
  method ScanTokens(source: string) returns (tokens: seq<Token>, diagnostic: Option<Error>)
    ensures Outcome(tokens, diagnostic) == Scan(source)
  {
    tokens := [];
    diagnostic := None;
    var chars := new Cursor(source);
    ghost var whole := ScanFrom(source, Position(0, 1));
    while chars.Peek().Some?
      invariant chars.Valid() && chars.source == source
      invariant whole == Outcome(tokens + ScanFrom(source, chars.At()).tokens,
                                 ScanFrom(source, chars.At()).diagnostic)
      decreases |source| - chars.pos
    {
      ghost var at := chars.At();
      var r := chars.ScanToken();
      ScanFromStep(source, at, r, chars.At());
      match r
      case Ok(Tok(token)) =>
        tokens := tokens + [token];
      case Ok(Comment) =>
        chars.ConsumeLine();
      case Ok(Whitespace) =>
      case Err(e) =>
        diagnostic := Some(e);
        break;
    }
    tokens := tokens + [Token(Eof, 0)];
  }
}
