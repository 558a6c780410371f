/**
 * The tokenizer of the calculator's Lisp-like language: the `Token` type, the
 * character classes it dispatches on, a pure specification of one call of
 * `next` and of the whole token stream, and the `Lexer` cursor object whose
 * methods follow the source loop by loop.
 */
module Lexing {
  import opened Wrappers

  /** One lexical unit. A number is represented by its lexeme rather than its
      floating-point value. */
  datatype Token =
    | Number(lexeme: string)
    | Parenthesis(ch: char)
    | Symbol(name: string)

  /** The fatal condition of the tokenizer: a digit/dot run that does not parse
      as a number. It carries the offending run. */
  datatype LexError = InvalidNumber(run: string)

  /** The outcome of one call of `next` together with the cursor position it
      leaves behind. */
  datatype Step = Step(result: Result<Option<Token>, LexError>, cursor: nat)

  /** Rust's `is_ascii_digit`: the ten characters `0` to `9`. */
  predicate IsAsciiDigit(c: char) {
    '0' <= c <= '9'
  }

  /** Rust's `is_ascii_whitespace`: space, horizontal tab, line feed, form
      feed and carriage return, but not the vertical tab U+000B. */
  predicate IsAsciiWhitespace(c: char) {
    c == ' ' || c == '\t' || c == '\n' || c == '\U{000C}' || c == '\r'
  }

  /** The two character classes spelled out: the ten digits, and whitespace
      by code point (9, 10, 12, 13 and 32). */
  lemma AsciiClasses(c: char)
    ensures IsAsciiDigit(c) <==> c in "0123456789"
    ensures IsAsciiWhitespace(c) <==> c as int in {0x09, 0x0A, 0x0C, 0x0D, 0x20}
  {
  }

  /** The characters a number run accumulates. */
  predicate IsNumberChar(c: char) {
    IsAsciiDigit(c) || c == '.'
  }

  predicate IsParenthesis(c: char) {
    c == '(' || c == ')'
  }

  /** The number of dots in `s`. */
  function DotCount(s: string): nat {
    if s == [] then 0 else (if s[0] == '.' then 1 else 0) + DotCount(s[1..])
  }

  /** A run that starts with a digit and holds only digits and dots is a valid
      floating-point literal exactly when it holds at most one dot. */
  predicate ParsesAsNumber(run: string) {
    DotCount(run) <= 1
  }

  /** `DotCount` counts exactly the dots: it is the multiplicity of `.` in the
      run, so a run parses exactly when `.` occurs in it at most once. */
  lemma {:induction false} DotCountIsMultiplicity(s: string)
    ensures DotCount(s) == multiset(s)['.']
    ensures ParsesAsNumber(s) <==> multiset(s)['.'] <= 1
  {
    if s != [] {
      DotCountIsMultiplicity(s[1..]);
      assert s == [s[0]] + s[1..];
    }
  }

  /** The shape every emitted token has. */
  predicate WellFormed(t: Token) {
    match t
    case Number(l) =>
      |l| > 0 && IsAsciiDigit(l[0]) && ParsesAsNumber(l) &&
      forall i :: 0 <= i < |l| ==> IsNumberChar(l[i])
    case Parenthesis(c) => IsParenthesis(c)
    case Symbol(n) =>
      |n| > 0 && !IsAsciiDigit(n[0]) && !IsParenthesis(n[0]) &&
      forall i :: 0 <= i < |n| ==> !IsAsciiWhitespace(n[i])
  }

  /** The text of the input a token was made from. */
  function Lexeme(t: Token): string {
    match t
    case Number(l) => l
    case Parenthesis(c) => [c]
    case Symbol(n) => n
  }

  /** The end of the maximal run of digits and dots that starts at `i`. */
  function NumberRunEnd(s: string, i: nat): (j: nat)
    requires i <= |s|
    ensures i <= j <= |s|
    ensures forall k :: i <= k < j ==> IsNumberChar(s[k])
    ensures j == |s| || !IsNumberChar(s[j])
    decreases |s| - i
  {
    if i < |s| && IsNumberChar(s[i]) then NumberRunEnd(s, i + 1) else i
  }

  /** The position of the first ASCII whitespace character at or after `i`,
      or the end of the input when there is none. */
  function SymbolRunEnd(s: string, i: nat): (j: nat)
    requires i <= |s|
    ensures i <= j <= |s|
    ensures forall k :: i <= k < j ==> !IsAsciiWhitespace(s[k])
    ensures j == |s| || IsAsciiWhitespace(s[j])
    decreases |s| - i
  {
    if i < |s| && !IsAsciiWhitespace(s[i]) then SymbolRunEnd(s, i + 1) else i
  }

  /** One call of `next` with the cursor at `pos`: the token it returns (or
      `None` at the end, or the fatal error) and where the cursor is left.
      A symbol scan that ends at once (the character was whitespace) is skipped
      and the dispatch starts again after it. */
  function NextToken(s: string, pos: nat): (r: Step)
    requires pos <= |s|
    ensures pos <= r.cursor <= |s|
    ensures r.result.Ok? && r.result.value.Some? ==> pos < r.cursor
    ensures r.result == Ok(None) ==> r.cursor == |s|
    decreases |s| - pos
  {
    if pos == |s| then Step(Ok(None), pos)
    else if IsAsciiDigit(s[pos]) then
      var end := NumberRunEnd(s, pos);
      var run := s[pos..end];
      if ParsesAsNumber(run) then Step(Ok(Some(Number(run))), end)
      else Step(Err(InvalidNumber(run)), end)
    else if IsParenthesis(s[pos]) then
      Step(Ok(Some(Parenthesis(s[pos]))), pos + 1)
    else
      var end := SymbolRunEnd(s, pos);
      // the terminating whitespace character is consumed as well
      var after := if end < |s| then end + 1 else end;
      if end == pos then NextToken(s, after)
      else Step(Ok(Some(Symbol(s[pos..end]))), after)
  }

  /** `acc` followed by the tokens of `r`, or the error of `r`. */
  function Prefixed(acc: seq<Token>, r: Result<seq<Token>, LexError>): Result<seq<Token>, LexError> {
    match r
    case Ok(ts) => Ok(acc + ts)
    case Err(e) => Err(e)
  }

  /** The whole token stream from `pos` on, pulled call by call until `None`;
      the first fatal error aborts the stream. */
  function TokenizeFrom(s: string, pos: nat): (r: Result<seq<Token>, LexError>)
    requires pos <= |s|
    ensures r.Ok? ==> |r.value| <= |s| - pos
    decreases |s| - pos
  {
    var step := NextToken(s, pos);
    match step.result
    case Err(e) => Err(e)
    case Ok(None) => Ok([])
    case Ok(Some(t)) => Prefixed([t], TokenizeFrom(s, step.cursor))
  }

  lemma PrefixedAppend(a: seq<Token>, b: seq<Token>, r: Result<seq<Token>, LexError>)
    ensures Prefixed(a, Prefixed(b, r)) == Prefixed(a + b, r)
  {
    if r.Ok? {
      assert a + (b + r.value) == (a + b) + r.value;
    }
  }

  /** The stream of a fresh lexer over the whole line: at most one token per
      character. */
  function Tokenize(s: string): (r: Result<seq<Token>, LexError>)
    ensures r.Ok? ==> |r.value| <= |s|
  {
    TokenizeFrom(s, 0)
  }

  /** A cursor over one line of input. */
  class Lexer {
    const input: string
    var pos: nat

    ghost predicate Valid()
      reads this
    {
      pos <= |input|
    }

    constructor (code: string)
      ensures Valid() && input == code && pos == 0
    {
      input := code;
      pos := 0;
    }

    /** Produces the next token, `None` at the end of the input, or the error
        for an invalid number run. */
    method Next() returns (r: Result<Option<Token>, LexError>)
      requires Valid()
      modifies this
      ensures Valid()
      ensures Step(r, pos) == NextToken(input, old(pos))
    {
      while pos < |input|
        invariant Valid()
        invariant NextToken(input, old(pos)) == NextToken(input, pos)
        decreases |input| - pos
      {
        var ch := input[pos];
        if IsAsciiDigit(ch) {
          var number := ScanNumber();
          if ParsesAsNumber(number) {
            return Ok(Some(Number(number)));
          } else {
            return Err(InvalidNumber(number));
          }
        } else if IsParenthesis(ch) {
          pos := pos + 1;
          return Ok(Some(Parenthesis(ch)));
        } else {
          var symbol := ScanSymbol();
          if |symbol| == 0 {
            continue;
          }
          return Ok(Some(Symbol(symbol)));
        }
      }
      return Ok(None);
    }

    /** Consumes the maximal run of digits and dots at the cursor and returns it. */
    method ScanNumber() returns (number: string)
      requires Valid()
      modifies this
      ensures Valid()
      ensures pos == NumberRunEnd(input, old(pos))
      ensures number == input[old(pos)..pos]
    {
      number := "";
      while pos < |input| && IsNumberChar(input[pos])
        invariant old(pos) <= pos <= |input|
        invariant number == input[old(pos)..pos]
        invariant NumberRunEnd(input, old(pos)) == NumberRunEnd(input, pos)
        decreases |input| - pos
      {
        assert input[old(pos)..pos + 1] == input[old(pos)..pos] + [input[pos]];
        number := number + [input[pos]];
        pos := pos + 1;
      }
    }

    /** Consumes characters up to and including the next ASCII whitespace
        character and returns those before it. */
    method ScanSymbol() returns (symbol: string)
      requires Valid()
      modifies this
      ensures Valid()
      ensures var end := SymbolRunEnd(input, old(pos));
        symbol == input[old(pos)..end] &&
        pos == if end < |input| then end + 1 else end
    {
      symbol := "";
      ghost var end := SymbolRunEnd(input, pos);
      while pos < |input|
        invariant old(pos) <= pos <= |input|
        invariant symbol == input[old(pos)..pos]
        invariant SymbolRunEnd(input, pos) == end
        decreases |input| - pos
      {
        var c := input[pos];
        pos := pos + 1;
        if IsAsciiWhitespace(c) {
          assert end == pos - 1;
          return;
        }
        assert input[old(pos)..pos] == input[old(pos)..pos - 1] + [c];
        symbol := symbol + [c];
      }
    }

    /** Pulls tokens until the end of the input or the first error. */
    method Collect() returns (r: Result<seq<Token>, LexError>)
      requires Valid()
      modifies this
      ensures Valid()
      ensures r == TokenizeFrom(input, old(pos))
      ensures r.Ok? ==> pos == |input|
    {
      var tokens: seq<Token> := [];
      assert Prefixed(tokens, TokenizeFrom(input, pos)) == TokenizeFrom(input, pos) by {
        assert forall ts: seq<Token> :: tokens + ts == ts;
      }
      while true
        invariant Valid()
        invariant TokenizeFrom(input, old(pos)) == Prefixed(tokens, TokenizeFrom(input, pos))
        decreases |input| - pos
      {
        var t := Next();
        match t
        case Err(e) =>
          return Err(e);
        case Ok(None) =>
          assert tokens + [] == tokens;
          return Ok(tokens);
        case Ok(Some(tok)) =>
          PrefixedAppend(tokens, [tok], TokenizeFrom(input, pos));
          tokens := tokens + [tok];
      }
    }
  }

  /** Lexes a whole line with a fresh lexer, as the unit tests do. */
  method Lex(code: string) returns (r: Result<seq<Token>, LexError>)
    ensures r == Tokenize(code)
  {
    var lexer := new Lexer(code);
    r := lexer.Collect();
  }
}
