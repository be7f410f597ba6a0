# Lox scanner, modelled and verified in Dafny

This project models the lexical scanner of a small Rust interpreter for the
Lox scripting language. The scanner turns source text into tokens, each
attributed to a line. It pulls characters one at a time from a peekable
iterator and keeps a line counter. The string scanner and the line-comment
skipper update that counter in place; the identifier scanner receives a
copy of it, and the number scanner does not see it. It skips whitespace and
`//` comments, stops at the first error, and always ends the token list
with an end-of-input token on line 0. The keyword table maps the sixteen
reserved words to their token kinds.

Modules:

- `Errors` (`error.dfy`): the `(line, message)` error record and the
  `Option` / `Result` wrappers.
- `Tokens` (`token.dfy`): the token kinds, `Token`, and the keyword table
  `KeywordOrIdentifier`. `Token::new` is the datatype constructor
  `Token(kind, line)`, which stores both fields unchanged.
- `Lexing` (`scanner_spec.dfy`): the scanner as pure functions over a
  string and a `Position` (index, line).
  - `Dispatch` is one call of `scan_token`.
  - `ScanFrom` is the main loop from a position; `Scan` is the whole scan.
  - `CommentEnd`, `StringLiteral`, `FindFrom` and `RunEnd` describe what the
    sub-scanners consume.
- `Scanner` (`scanner.dfy`): the imperative scanner. `Cursor` is a class
  holding the source, the index `pos` and the `line` counter, which its
  methods update in place. `ScanTokens` is the main loop. Each method is
  proved to compute what the `Lexing` function specifies.
- `ScannerProperties` (`scanner_props.dfy`): lemmas about the specification.
  They cover line counting, maximal munch, what each sub-scanner consumes,
  trivia that scans to nothing, and how an error ends the scan.
- `ScannerExamples` (`examples.dfy`): concrete scans that pin down the
  behaviour described below.

The model follows the code as written, including three behaviours that a
reader of the language's usual description might not expect:

- `take_while` on the iterator consumes the first character that fails its
  predicate and drops it. So `a)` yields no right-parenthesis token, and a
  line break right after a word or number is not counted.
- Line breaks inside a string literal are counted but left out of the
  literal's value.
- A string token is attributed to the line reached after its closing
  quote, since the line counter is read after the string scanner returns.

Because of the first point, scanning is not compositional. The scan of a
concatenation of two inputs need not be the concatenation of their scans
when the first input ends in a word: `WordSwallowsNextCharacter` and
`NewlineAfterWordNotCounted` are witnesses.

## Model

| member | source | states |
|---|---|---|
| Tokens.KeywordOrIdentifier | src/token.rs:56-76 | the result is a keyword kind or an identifier carrying exactly the input; it is an identifier exactly when the input is not one of the sixteen reserved words; a keyword result is spelled as the input |
| Tokens.KeywordRoundTrip | src/token.rs:58-73 | every keyword kind's spelling is a reserved word that maps back to that same kind |
| Tokens.KeywordOrIdentifierInjective | src/token.rs:57-75 | two words that classify to the same kind are equal, so the keyword table is injective |
| Tokens.KeywordMatchIsExact | src/token.rs:57-74 | matching is exact and case-sensitive: `class` is the keyword, while `classy` and `Class` are identifiers |
| Lexing.DropNewlinesContents | src/scanner.rs:155-156 | dropping line breaks keeps every other character as often as it occurs, and changes nothing in text without line breaks |
| Lexing.FindFrom | src/scanner.rs:146-157 | the index of the first occurrence of a character at or after a start, or the end of input when there is none; through `CommentEnd` it also fixes where the comment skipper at src/scanner.rs:32-43 stops |
| Lexing.RunEnd | src/scanner.rs:126 | the end of the maximal run of characters satisfying a predicate: all characters before it satisfy it, the one at it does not; the same holds for the number scanner's run at src/scanner.rs:166 |
| Lexing.CommentEnd | src/scanner.rs:32-43 | skipping a comment stops just past the next line break, or at the end of input; the line grows by the line breaks consumed, at most one |
| Lexing.StringLiteralMeaning | src/scanner.rs:140-161 | a literal ends at the first quote after the opening one; its value is the text between with line breaks dropped, and its line is the opening line plus those line breaks; without a closing quote the error is "Unterminated string." on the line reached at the end of input |
| Lexing.StringLiteralCloses | src/scanner.rs:146-160 | given the first closing quote, the literal's value and resume position are determined |
| Lexing.StringLiteralUnterminated | src/scanner.rs:147-153 | with no quote left in the input, the literal is the unterminated-string error on the line reached at the end |
| Lexing.StringLiteral | src/scanner.rs:140-161 | the string scanner's result: a literal that resumes past the opening position on a line no smaller than the start, or the "Unterminated string." error on such a line; its full meaning is stated by `Lexing.StringLiteralMeaning` |
| Lexing.StringStep | src/scanner.rs:105 | scanning a string either yields a string token on the line reached after the closing quote, having consumed at least the closing quote, or the unterminated-string error with the whole input consumed |
| Lexing.Operator | src/scanner.rs:62-90 | the two-character operator kind is chosen exactly when the next character is `=`, which is then consumed; otherwise the one-character kind, consuming nothing more; the token is on the current line |
| Lexing.Past | src/scanner.rs:126 | where `take_while` leaves the iterator: one past the end of the run exactly when a character, still inside the input, ended it; otherwise at the end of the run itself; the number scanner's `take_while` at src/scanner.rs:166 leaves it the same way |
| Lexing.StringStepLines | src/scanner.rs:155 | scanning a string advances the line by exactly the line breaks it consumes |
| Lexing.Dispatch | src/scanner.rs:45-118 | each step consumes at least one character; the line never decreases; no step emits an end-of-input token; a token's line lies between the lines before and after the step; an error is on the line reached and is one of the two scanner messages |
| Lexing.ScanFrom | src/scanner.rs:10-20 | no scanned token is end-of-input; token lines never decrease along the list; an error carries one of the two messages and a line no smaller than any token's |
| Lexing.Scan | src/scanner.rs:5-24 | the result ends with exactly one end-of-input token on line 0; every earlier token is on line 1 or later; an error is on line 1 or later |
| Scanner.Cursor.constructor | src/scanner.rs:7-8 | the cursor starts at the first character on line 1 |
| Scanner.Cursor.Peek | src/scanner.rs:10 | the next character, present exactly when input remains |
| Scanner.Cursor.Next | src/scanner.rs:49 | consumes and returns the next character, advancing by one exactly when there is one |
| Scanner.Cursor.Matches | src/scanner.rs:132-138 | consumes the next character only when it is the expected one, and reports whether it did |
| Scanner.Cursor.ConsumeLine | src/scanner.rs:32-43 | the loop leaves the cursor where `Lexing.CommentEnd` says |
| Scanner.Cursor.TakeWhile | src/scanner.rs:126 | returns the maximal run of matching characters, and leaves the cursor one past the character that ended the run |
| Scanner.Cursor.ReadString | src/scanner.rs:146-158 | reads up to and including the first quote, or to the end of input; the value is the text read with line breaks dropped, and the line grows by exactly those line breaks |
| Scanner.Cursor.ScanString | src/scanner.rs:140-161 | returns the value, position and line of `Lexing.StringLiteral`, or its error with the input exhausted |
| Scanner.Cursor.ScanNumber | src/scanner.rs:163-171 | the lexeme is the leading digit plus the maximal run of digits and dots, with the character after the run consumed |
| Scanner.Cursor.ScanIdentifier | src/scanner.rs:120-130 | the token is the keyword or identifier of the leading letter plus the maximal alphanumeric run, on the unchanged line, with the character after the run consumed |
| Scanner.Cursor.ScanToken | src/scanner.rs:45-118 | one step of the imperative dispatcher has exactly the result and the new position and line of `Lexing.Dispatch` |
| Scanner.ScanTokens | src/scanner.rs:5-24 | the main loop returns exactly the tokens and error of `Lexing.Scan` |
| ScannerProperties.StringLineCount | src/scanner.rs:140-161 | a string step, closed or not, moves the line by the line breaks between its start and where it stops |
| ScannerProperties.DispatchLineCount | src/scanner.rs:98-108 | after a number, identifier or keyword the line is unchanged; after every other step it grows by exactly the line breaks consumed |
| ScannerProperties.ScanFromLinesBounded | src/scanner.rs:10-20 | no token or error is attributed past the starting line plus the line breaks in the rest of the input |
| ScannerProperties.ScanLinesBounded | src/scanner.rs:8-21 | every token before end-of-input is on a line from 1 to one more than the number of line breaks in the input |
| ScannerProperties.OperatorMaximalMunch | src/scanner.rs:62-90 | `!`, `=`, `<` and `>` give the two-character operator, consuming two characters, exactly when `=` follows, and the one-character operator otherwise |
| ScannerProperties.SlashOrComment | src/scanner.rs:91-97 | `//` yields nothing and scanning resumes after the comment; a lone `/` is the slash token |
| ScannerProperties.StringToken | src/scanner.rs:105 | a string token's value is the text up to the first closing quote with line breaks dropped, on the line reached after the quote; without a closing quote the whole input is consumed and the error is "Unterminated string." |
| ScannerProperties.IdentifierToken | src/scanner.rs:120-130 | a word starting with a letter is the keyword or identifier of its maximal alphanumeric run, on the current line; the character after the run is consumed too |
| ScannerProperties.NumberToken | src/scanner.rs:163-167 | a number's lexeme is its maximal run of digits and dots, on the current line; the character after the run is consumed too |
| ScannerProperties.UnexpectedCharacterStops | src/scanner.rs:109-113 | a character that starts no token ends the scan with no further tokens and "Unexpected character" on the current line |
| ScannerProperties.ErrorEndsScan | src/scanner.rs:15-18 | once a step fails, the scan yields no more tokens and reports that step's error |
| ScannerProperties.BlankSkipped | src/scanner.rs:98-104 | a space, carriage return, tab or line break yields nothing; only the line break advances the line |
| ScannerProperties.CommentSkipped | src/scanner.rs:32-43 | a comment yields nothing and scanning resumes after its line break, on the next line, or ends at the end of input |
| ScannerProperties.TriviaScansToNothing | src/scanner.rs:10-20 | any sequence of blanks and line comments scans to no tokens and no error |
| ScannerProperties.TriviaOnlyYieldsEof | src/scanner.rs:13-14 | input made only of whitespace and line comments scans to the end-of-input token alone |
| ScannerExamples.ScanBangEqual | src/scanner.rs:62-68 | `!=` scans to one two-character operator on line 1, then end-of-input on line 0 |
| ScannerExamples.ScanUnexpected | src/scanner.rs:109-113 | `@` scans to end-of-input alone, with "Unexpected character" on line 1 |
| ScannerExamples.WordSwallowsNextCharacter | src/scanner.rs:126 | `a)` scans to the identifier `a` and end-of-input, with no right parenthesis |
| ScannerExamples.NewlineAfterWordNotCounted | src/scanner.rs:126 | in `a`, line break, `b`, both identifiers are on line 1 |
| ScannerExamples.MultiLineString | src/scanner.rs:155 | a literal spanning two lines has the line break left out of its value and is attributed to line 2 |

## Left out

- `src/main.rs` is not part of this model. It is command-line and REPL plumbing: arguments, file and standard-input reading, and process exit.
- `src/parser.rs` is not part of this model. It declares data types only.
- Error formatting (the `[line N] Error: message` display of `src/error.rs`) and `Display for Token` are not modelled. `Error` is a plain `(line, message)` record.
- Printing is not modelled. `ScanTokens` returns the error that the source prints to standard error as an out-parameter `diagnostic`. The debug print of a number's first digit to standard output is left out.
- Number values are not modelled. The floating-point parse of a number lexeme, and its panic on text such as `1.2.3`, are outside the model; a `Number` token carries its lexeme.
- Unicode character classes are not modelled. Digits and letters are ASCII (`0-9`, `a-z`, `A-Z`), tested digit first as in the source. `_` starts or continues no word.
- The line counter is a `nat`, so machine-word overflow of the counter is not modelled.
- Growing buffers are not modelled in place. The token vector and the string literal's buffer are sequences that the loops reassign.
