/**
 * The unit tests of the lexer, stated as facts about the token stream. Each
 * test fixes what every call of `next` returns, then builds the stream from
 * the last call back to the first. Each test takes its input line as a
 * parameter fixed by `requires s == "..."` rather than writing the literal in
 * the `ensures`: the verifier then does not evaluate the lexer's recursive
 * functions on the literal all at once, which is far more costly.
 */
module LexingExamples {
  import opened Wrappers
  import opened Lexing
  import LexingProperties

  /** `next` at a digit whose digit/dot run ends at `e`. */
  lemma NumberStep(s: string, k: nat, e: nat)
    requires k < e <= |s| && IsAsciiDigit(s[k])
    requires forall i :: k <= i < e ==> IsNumberChar(s[i])
    requires e == |s| || !IsNumberChar(s[e])
    ensures NextToken(s, k) ==
      if ParsesAsNumber(s[k..e]) then Step(Ok(Some(Number(s[k..e]))), e)
      else Step(Err(InvalidNumber(s[k..e])), e)
  {
    var j := NumberRunEnd(s, k);
    assert j == e by {
      if j < e { assert false; }
      if e < j { assert false; }
    }
  }

  /** `next` at the start of a symbol that ends at `e`. */
  lemma SymbolStep(s: string, k: nat, e: nat)
    requires k < e <= |s| && !IsAsciiDigit(s[k]) && !IsParenthesis(s[k])
    requires forall i :: k <= i < e ==> !IsAsciiWhitespace(s[i])
    requires e == |s| || IsAsciiWhitespace(s[e])
    ensures NextToken(s, k) == Step(Ok(Some(Symbol(s[k..e]))), if e < |s| then e + 1 else e)
  {
    var j := SymbolRunEnd(s, k);
    assert j == e by {
      if j < e { assert false; }
      if e < j { assert false; }
    }
  }

  /** `next` at a parenthesis. */
  lemma ParenthesisStep(s: string, k: nat)
    requires k < |s| && IsParenthesis(s[k])
    ensures NextToken(s, k) == Step(Ok(Some(Parenthesis(s[k]))), k + 1)
  {
  }

  /** One step of the stream: a token, then the stream after it. */
  lemma StreamStep(s: string, pos: nat, t: Token, p: nat)
    requires pos <= |s| && NextToken(s, pos) == Step(Ok(Some(t)), p)
    ensures TokenizeFrom(s, pos) == Prefixed([t], TokenizeFrom(s, p))
  {
  }

  lemma EmptyCode()
    ensures Tokenize("") == Ok([])
  {
  }

  lemma BasicExpression(s: string)
    requires s == "(+ 2 74.95)"
    ensures Tokenize(s) == Ok([
      Parenthesis('('), Symbol("+"), Number("2"), Number("74.95"), Parenthesis(')')])
  {
    ParenthesisStep(s, 0);
    assert s[1..2] == "+";
    SymbolStep(s, 1, 2);
    var t0, t1, t2, t3, t4 := Parenthesis('('), Symbol("+"), Number("2"), Number("74.95"), Parenthesis(')');
    BasicExpressionArguments(s);
    StreamStep(s, 1, t1, 3);
    StreamStep(s, 0, t0, 1);
    assert [t0] + ([t1] + [t2, t3, t4]) == [t0, t1, t2, t3, t4];
  }

  /** The part of `BasicExpression` after the operator. */
  lemma BasicExpressionArguments(s: string)
    requires s == "(+ 2 74.95)"
    ensures TokenizeFrom(s, 3) == Ok([Number("2"), Number("74.95"), Parenthesis(')')])
  {
    assert s[3..4] == "2";
    NumberStep(s, 3, 4);
    LexingProperties.SkipOne(s, 4);
    assert s[5..10] == "74.95";
    NumberStep(s, 5, 10);
    ParenthesisStep(s, 10);
    var t2, t3, t4 := Number("2"), Number("74.95"), Parenthesis(')');
    StreamStep(s, 10, t4, 11);
    assert TokenizeFrom(s, 10) == Ok([t4]) by { assert [t4] + [] == [t4]; }
    StreamStep(s, 4, t3, 10);
    StreamStep(s, 3, t2, 4);
    assert [t2] + ([t3] + [t4]) == [t2, t3, t4];
  }

  /** A digit right after a symbol's first character stays in the symbol. */
  lemma MissingSpaceMergesNumberToSymbol(s: string)
    requires s == "(+2 4)"
    ensures Tokenize(s) == Ok([Parenthesis('('), Symbol("+2"), Number("4"), Parenthesis(')')])
  {
    ParenthesisStep(s, 0);
    assert s[1..3] == "+2" && s[4..5] == "4";
    SymbolStep(s, 1, 3);
    NumberStep(s, 4, 5);
    ParenthesisStep(s, 5);
    var t0, t1, t2, t3 := Parenthesis('('), Symbol("+2"), Number("4"), Parenthesis(')');
    StreamStep(s, 5, t3, 6);
    assert TokenizeFrom(s, 5) == Ok([t3]) by { assert [t3] + [] == [t3]; }
    StreamStep(s, 4, t2, 5);
    StreamStep(s, 1, t1, 4);
    StreamStep(s, 0, t0, 1);
    assert [t0] + ([t1] + ([t2] + [t3])) == [t0, t1, t2, t3];
  }

  lemma AllValidSymbols(s: string)
    requires s == "+ - * / %"
    ensures Tokenize(s) == Ok([Symbol("+"), Symbol("-"), Symbol("*"), Symbol("/"), Symbol("%")])
  {
    assert s[0..1] == "+" && s[2..3] == "-";
    SymbolStep(s, 0, 1);
    SymbolStep(s, 2, 3);
    var t0, t1, t2, t3, t4 := Symbol("+"), Symbol("-"), Symbol("*"), Symbol("/"), Symbol("%");
    AllValidSymbolsLast(s);
    StreamStep(s, 2, t1, 4);
    StreamStep(s, 0, t0, 2);
    assert [t0] + ([t1] + [t2, t3, t4]) == [t0, t1, t2, t3, t4];
  }

  /** The last three symbols of `AllValidSymbols`. */
  lemma AllValidSymbolsLast(s: string)
    requires s == "+ - * / %"
    ensures TokenizeFrom(s, 4) == Ok([Symbol("*"), Symbol("/"), Symbol("%")])
  {
    assert s[4..5] == "*" && s[6..7] == "/" && s[8..9] == "%";
    SymbolStep(s, 4, 5);
    SymbolStep(s, 6, 7);
    SymbolStep(s, 8, 9);
    var t2, t3, t4 := Symbol("*"), Symbol("/"), Symbol("%");
    StreamStep(s, 8, t4, 9);
    assert TokenizeFrom(s, 8) == Ok([t4]) by { assert [t4] + [] == [t4]; }
    StreamStep(s, 6, t3, 8);
    StreamStep(s, 4, t2, 6);
    assert [t2] + ([t3] + [t4]) == [t2, t3, t4];
  }

  /** A run with two dots is fatal and the stream has no tokens. */
  lemma InvalidNumberIsFatal(s: string)
    requires s == "98.23.35"
    ensures Tokenize(s) == Err(InvalidNumber("98.23.35"))
  {
    assert s[0..8] == "98.23.35";
    NumberStep(s, 0, 8);
  }

  /** A symbol runs up to whitespace only, so a closing parenthesis right
      after it becomes part of it. */
  lemma ParenthesisAbsorbedBySymbol(s: string)
    requires s == "abc)"
    ensures Tokenize(s) == Ok([Symbol("abc)")])
  {
    assert s[0..4] == "abc)";
    SymbolStep(s, 0, 4);
    StreamStep(s, 0, Symbol("abc)"), 4);
    assert [Symbol("abc)")] + [] == [Symbol("abc)")];
  }
}
