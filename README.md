# rustic-lisp lexer, modelled in Dafny

This project models the tokenizer of rustic-lisp, a small Lisp-style calculator
language. The tokenizer turns one line of input, a sequence of characters, into
tokens:

- `Number`: a run of ASCII digits and dots that starts with a digit;
- `Parenthesis`: `(` or `)`;
- `Symbol`: any other run of characters that ends at ASCII whitespace.

The source `Lexer` is an iterator. Each call of `next` skips whitespace-only
symbol scans and returns one token. It returns `None` when the input is used
up. It panics on a digit/dot run that does not parse as a float.

Files:

- `wrappers.dfy` (module `Wrappers`): `Option` and `Result`.
- `lexer.dfy` (module `Lexing`):
  - the `Token` datatype, and `LexError` for the panic;
  - the character classes: ASCII digit, and ASCII whitespace as Rust's
    `is_ascii_whitespace` defines it (space, tab, line feed, form feed,
    carriage return);
  - the pure specification `NextToken` of one call of `next`, and the whole
    stream `TokenizeFrom` / `Tokenize`;
  - the class `Lexer`. It has the input as a `const` sequence and the cursor
    as a field `pos`. Its method `Next` follows the source's outer loop,
    including the `continue` for an empty symbol. The two inner loops, the
    digit/dot scan and the symbol scan, are the methods `ScanNumber` and
    `ScanSymbol`. `Collect` pulls tokens until the end, as Rust's `collect`
    does in the tests. `Lex` is the tests' helper macro: a fresh lexer, then
    collect.
- `properties.dfy` (module `LexingProperties`): lemmas about one call and about
  the whole stream.
- `examples.dfy` (module `LexingExamples`): the unit tests of `lexer.rs`, as
  lemmas about `Tokenize`.

A `Number` keeps its lexeme, not an `f64`. A run reaching the parse holds only
digits and dots and starts with a digit. Rust's float grammar accepts such a
run (`12`, `1.`, `1.5`) exactly when it has at most one dot, so "parses" is
modelled as "at most one `.`" (`ParsesAsNumber`). The panic becomes
`Err(InvalidNumber(run))`. That stops the stream. The cursor stays just past
the run, as in the source just before the panic.

The model follows the code. The code has no quote punctuator and no string
literals, and a symbol ends only at whitespace, never at a parenthesis. So
`abc)` is the single symbol `abc)`.

## Model

| member | source | states |
|---|---|---|
| Lexing.NumberRunEnd | src/interpreter/lexer.rs:32-39 | the digit/dot scan stops at the first character that is neither a digit nor `.`: every character before the returned end is a digit or dot, and the one at the end (if any) is not |
| Lexing.SymbolRunEnd | src/interpreter/lexer.rs:54-60 | the symbol scan stops at the first ASCII whitespace character: every character before the returned end is non-whitespace, and the one at the end (if any) is whitespace |
| Lexing.NextToken | src/interpreter/lexer.rs:25-72 | one call of `next`: the cursor never moves back or past the input; a call that returns a token consumes at least one character; `None` leaves the cursor at the end of the input |
| Lexing.TokenizeFrom | src/interpreter/lexer.rs:25-83 | the stream pulled call by call stops at `None` or at the first error; a successful stream has at most as many tokens as there are characters left |
| Lexing.Tokenize | src/interpreter/lexer.rs:81-83 | the stream of a fresh lexer over a whole line, collected; on success it has at most one token per input character |
| Lexing.AsciiClasses | src/interpreter/lexer.rs:29-55 | `is_ascii_digit` (lines 29, 33) holds of exactly the ten characters `0` to `9`; `is_ascii_whitespace` (line 55) holds of exactly the code points 9, 10, 12, 13 and 32, so not of the vertical tab 11 |
| Lexing.DotCountIsMultiplicity | src/interpreter/lexer.rs:41-45 | `ParsesAsNumber`, which stands for `number.parse::<f64>()` succeeding on a digit-led digit/dot run, holds exactly when `.` occurs at most once in the run; `DotCount` is the multiplicity of `.` |
| Lexing.Lexer.constructor | src/interpreter/lexer.rs:17-19 | a new lexer holds the given input, with the cursor at its start |
| Lexing.Lexer.Next | src/interpreter/lexer.rs:25-72 | the method returns what `NextToken` says for the old cursor, and it leaves the cursor where `NextToken` says |
| Lexing.Lexer.ScanNumber | src/interpreter/lexer.rs:30-39 | the method consumes exactly the maximal digit/dot run at the cursor and returns it |
| Lexing.Lexer.ScanSymbol | src/interpreter/lexer.rs:52-60 | the method returns the characters up to the next whitespace; it consumes them and that whitespace, but nothing after it |
| Lexing.Lexer.Collect | src/interpreter/lexer.rs:79-85 | pulling tokens with `Next` until `None` or an error gives `TokenizeFrom` of the starting cursor; on success the input is used up |
| Lexing.Lex | src/interpreter/lexer.rs:79-86 | lexing a line with a fresh lexer gives `Tokenize` of that line |
| LexingProperties.SkipOne | src/interpreter/lexer.rs:51-64 | a whitespace character at the cursor gives an empty symbol; the loop then starts again one character later |
| LexingProperties.SkipsWhitespace | src/interpreter/lexer.rs:27-64 | leading whitespace, of any length, does not change what `next` returns or where it leaves the cursor |
| LexingProperties.EndOfInputIff | src/interpreter/lexer.rs:27-71 | `next` returns `None` if and only if only whitespace is left |
| LexingProperties.FirstCharDecidesKind | src/interpreter/lexer.rs:28-66 | the first non-whitespace character decides the kind. A digit gives the maximal digit/dot run: a number if it has at most one dot, the error if it has two or more. A parenthesis gives itself and consumes one character. Anything else gives a symbol up to the next whitespace, digits and parentheses included |
| LexingProperties.NumberTokenShape | src/interpreter/lexer.rs:29-42 | a number lexeme is non-empty, starts with a digit, holds only digits and dots, and has at most one dot. It is the text just before the cursor, after only whitespace. It is maximal: the next character (not consumed) is neither a digit nor `.` |
| LexingProperties.InvalidNumberShape | src/interpreter/lexer.rs:41-45 | the error names a maximal digit/dot run with two dots or more, read after only whitespace; no token is returned for it |
| LexingProperties.ParenthesisShape | src/interpreter/lexer.rs:47-50 | a parenthesis token is `(` or `)`; it is the one character just before the cursor, after only whitespace |
| LexingProperties.SymbolShape | src/interpreter/lexer.rs:51-66 | a symbol is non-empty, has no whitespace, and does not start with a digit or a parenthesis. The scan consumes the whitespace that ends the symbol and nothing more; the cursor stops at the end only when no whitespace ended it |
| LexingProperties.EmittedTokenWellFormed | src/interpreter/lexer.rs:25-72 | every token `next` returns has its kind's shape |
| LexingProperties.StepSpelling | src/interpreter/lexer.rs:25-72 | what one call consumes, less whitespace, is exactly the lexeme of the token it returns |
| LexingProperties.SpellingFrom | src/interpreter/lexer.rs:25-83 | the lexemes of a successful stream, in order, spell the rest of the input with its ASCII whitespace removed |
| LexingProperties.SpellingIsInputWithoutWhitespace | src/interpreter/lexer.rs:25-83 | on success, the lexemes of all tokens in order spell the whole input without its whitespace, so tokens appear in input order |
| LexingProperties.StreamWellFormed | src/interpreter/lexer.rs:25-72 | every token of a successful stream has its kind's shape |
| LexingProperties.WhitespaceOnlyIff | src/interpreter/lexer.rs:62-64 | the stream is empty (and not an error) if and only if the input is empty or only whitespace |
| LexingProperties.StreamErrorShape | src/interpreter/lexer.rs:41-45 | a failed stream names a run of the input that starts with a digit and has two dots or more |
| LexingExamples.EmptyCode | src/interpreter/lexer.rs:88-91 | the empty input gives no tokens |
| LexingExamples.BasicExpression | src/interpreter/lexer.rs:93-102 | `(+ 2 74.95)` gives `(`, `+`, `2`, `74.95`, `)` |
| LexingExamples.MissingSpaceMergesNumberToSymbol | src/interpreter/lexer.rs:104-112 | `(+2 4)` gives `(`, `+2`, `4`, `)` |
| LexingExamples.AllValidSymbols | src/interpreter/lexer.rs:114-123 | `+ - * / %` gives five one-character symbols |
| LexingExamples.InvalidNumberIsFatal | src/interpreter/lexer.rs:125-129 | `98.23.35` gives the error for that run and no tokens |
| LexingExamples.ParenthesisAbsorbedBySymbol | src/interpreter/lexer.rs:54-60 | `abc)` gives the single symbol `abc)`, because a symbol ends only at whitespace |

Functions are deterministic in Dafny. So two fresh lexers on the same line
give the same stream, and no lemma is needed for that.

## Left out

- The numeric value of a number: the `f64` that `number.parse::<f64>()` computes (src/interpreter/lexer.rs:41) is floating-point work in Rust's library. Only the lexeme and the condition that decides whether the parse succeeds are modelled.
- ParsesAsNumber: "at most one dot" is the condition of Rust's documented float grammar for a run of digits and dots that starts with a digit. Toolchains whose float parser rejects other such runs (older Rust versions are reported to have refused runs of several hundred significant digits) are not modelled; the source names no toolchain.
- The panic message (src/interpreter/lexer.rs:44): the failure is the value `InvalidNumber(run)`. The model's process does not abort; the stream simply ends with the error.
- Rust's iterator and borrowing machinery (`Peekable<Iter<'a, char>>`, lifetimes, `collect`): the cursor is an index into an immutable sequence.
- src/repl/mod.rs: the interactive loop (readline, history, printing) depends on an external crate. It is not part of this model.
