/**
 * Properties of the tokenizer: what one call of `next` consumes and returns,
 * and what the whole token stream says about the input.
 */
module LexingProperties {
  import opened Wrappers
  import opened Lexing

  /** Every character of `s[i..j]` is ASCII whitespace. */
  predicate AllWhitespace(s: string, i: nat, j: nat)
    requires i <= j <= |s|
  {
    forall k :: i <= k < j ==> IsAsciiWhitespace(s[k])
  }

  /** The input with every ASCII whitespace character taken out. */
  function RemoveWhitespace(s: string): string {
    if s == [] then []
    else if IsAsciiWhitespace(s[0]) then RemoveWhitespace(s[1..])
    else [s[0]] + RemoveWhitespace(s[1..])
  }

  /** The lexemes of a token sequence, one after the other. */
  function Spelling(ts: seq<Token>): string {
    if ts == [] then [] else Lexeme(ts[0]) + Spelling(ts[1..])
  }

  lemma {:induction false} RemoveWhitespaceAppend(a: string, b: string)
    ensures RemoveWhitespace(a + b) == RemoveWhitespace(a) + RemoveWhitespace(b)
  {
    if a == [] {
      assert a + b == b;
    } else {
      assert (a + b)[1..] == a[1..] + b;
      RemoveWhitespaceAppend(a[1..], b);
    }
  }

  lemma {:induction false} RemoveWhitespaceKeeps(s: string)
    requires forall i :: 0 <= i < |s| ==> !IsAsciiWhitespace(s[i])
    ensures RemoveWhitespace(s) == s
  {
    if s != [] {
      RemoveWhitespaceKeeps(s[1..]);
      assert s == [s[0]] + s[1..];
    }
  }

  lemma {:induction false} RemoveWhitespaceDrops(s: string)
    requires forall i :: 0 <= i < |s| ==> IsAsciiWhitespace(s[i])
    ensures RemoveWhitespace(s) == []
  {
    if s != [] {
      RemoveWhitespaceDrops(s[1..]);
    }
  }

  /** A whitespace character at the cursor is consumed by an empty symbol scan
      and the dispatch starts again after it. */
  lemma SkipOne(s: string, pos: nat)
    requires pos < |s| && IsAsciiWhitespace(s[pos])
    ensures NextToken(s, pos) == NextToken(s, pos + 1)
  {
  }

  /** Leading whitespace is skipped: the result does not depend on it. */
  lemma {:induction false} SkipsWhitespace(s: string, pos: nat, k: nat)
    requires pos <= k <= |s| && AllWhitespace(s, pos, k)
    ensures NextToken(s, pos) == NextToken(s, k)
    decreases k - pos
  {
    if pos < k {
      SkipOne(s, pos);
      SkipsWhitespace(s, pos + 1, k);
    }
  }

  /** `next` returns `None` exactly when only whitespace is left. */
  lemma {:induction false} EndOfInputIff(s: string, pos: nat)
    requires pos <= |s|
    ensures NextToken(s, pos).result == Ok(None) <==> AllWhitespace(s, pos, |s|)
    decreases |s| - pos
  {
    if pos < |s| {
      if IsAsciiWhitespace(s[pos]) {
        SkipOne(s, pos);
        EndOfInputIff(s, pos + 1);
      } else {
        assert SymbolRunEnd(s, pos) > pos;
      }
    }
  }

  /** The first non-whitespace character decides the kind of the token: a
      digit starts a number run that fails exactly when it holds two dots or
      more, a parenthesis is a token of its own that consumes one character,
      and anything else starts a symbol that runs up to the next whitespace,
      digits and parentheses included. */
  lemma FirstCharDecidesKind(s: string, pos: nat, k: nat)
    requires pos <= k < |s| && AllWhitespace(s, pos, k) && !IsAsciiWhitespace(s[k])
    ensures var r := NextToken(s, pos);
      var run := s[k..NumberRunEnd(s, k)];
      var word := s[k..SymbolRunEnd(s, k)];
      (IsAsciiDigit(s[k]) ==>
        r.cursor == NumberRunEnd(s, k) &&
        (r.result.Err? <==> DotCount(run) >= 2) &&
        (r.result.Err? ==> r.result == Err(InvalidNumber(run))) &&
        (r.result.Ok? ==> r.result == Ok(Some(Number(run))))) &&
      (IsParenthesis(s[k]) ==> r == Step(Ok(Some(Parenthesis(s[k]))), k + 1)) &&
      (!IsAsciiDigit(s[k]) && !IsParenthesis(s[k]) ==>
        r.result == Ok(Some(Symbol(word))) &&
        r.cursor == (if SymbolRunEnd(s, k) < |s| then SymbolRunEnd(s, k) + 1 else |s|))
  {
    SkipsWhitespace(s, pos, k);
  }

  /** A number lexeme is a maximal digit/dot run with at most one dot that
      follows only whitespace; the character after it is not consumed. */
  lemma {:induction false} NumberTokenShape(s: string, pos: nat, lexeme: string, p: nat)
    requires pos <= |s| && NextToken(s, pos) == Step(Ok(Some(Number(lexeme))), p)
    ensures WellFormed(Number(lexeme))
    ensures pos + |lexeme| <= p && s[p - |lexeme|..p] == lexeme
    ensures AllWhitespace(s, pos, p - |lexeme|)
    ensures p == |s| || !IsNumberChar(s[p])
    decreases |s| - pos
  {
    if IsAsciiWhitespace(s[pos]) {
      SkipOne(s, pos);
      NumberTokenShape(s, pos + 1, lexeme, p);
    }
  }

  /** A digit/dot run with two dots or more is fatal, and no token is
      returned for it. */
  lemma {:induction false} InvalidNumberShape(s: string, pos: nat, run: string, p: nat)
    requires pos <= |s| && NextToken(s, pos) == Step(Err(InvalidNumber(run)), p)
    ensures |run| > 0 && IsAsciiDigit(run[0]) && DotCount(run) >= 2
    ensures forall i :: 0 <= i < |run| ==> IsNumberChar(run[i])
    ensures pos + |run| <= p && s[p - |run|..p] == run
    ensures AllWhitespace(s, pos, p - |run|)
    ensures p == |s| || !IsNumberChar(s[p])
    decreases |s| - pos
  {
    if IsAsciiWhitespace(s[pos]) {
      SkipOne(s, pos);
      InvalidNumberShape(s, pos + 1, run, p);
    }
  }

  /** A parenthesis token is `(` or `)`, the character it was read from, and
      the cursor stops right after it. */
  lemma {:induction false} ParenthesisShape(s: string, pos: nat, c: char, p: nat)
    requires pos <= |s| && NextToken(s, pos) == Step(Ok(Some(Parenthesis(c))), p)
    ensures IsParenthesis(c)
    ensures pos < p && s[p - 1] == c && AllWhitespace(s, pos, p - 1)
    decreases |s| - pos
  {
    if IsAsciiWhitespace(s[pos]) {
      SkipOne(s, pos);
      ParenthesisShape(s, pos + 1, c, p);
    }
  }

  /** A symbol is non-empty and free of whitespace; the scan consumes the
      whitespace character that ends it and nothing after it. */
  lemma {:induction false} SymbolShape(s: string, pos: nat, name: string, p: nat)
    requires pos <= |s| && NextToken(s, pos) == Step(Ok(Some(Symbol(name))), p)
    ensures WellFormed(Symbol(name))
    ensures 0 < p && var end := if IsAsciiWhitespace(s[p - 1]) then p - 1 else p;
      (end == p ==> p == |s|) &&
      pos + |name| <= end && s[end - |name|..end] == name &&
      AllWhitespace(s, pos, end - |name|)
    decreases |s| - pos
  {
    if IsAsciiWhitespace(s[pos]) {
      SkipOne(s, pos);
      SymbolShape(s, pos + 1, name, p);
    } else {
      FirstCharDecidesKind(s, pos, pos);
      assert (if IsAsciiWhitespace(s[p - 1]) then p - 1 else p) == SymbolRunEnd(s, pos);
    }
  }

  /** Every token `next` returns is well formed. */
  lemma EmittedTokenWellFormed(s: string, pos: nat)
    requires pos <= |s| && NextToken(s, pos).result.Ok? && NextToken(s, pos).result.value.Some?
    ensures WellFormed(NextToken(s, pos).result.value.value)
  {
    var p := NextToken(s, pos).cursor;
    match NextToken(s, pos).result.value.value
    case Number(l) => NumberTokenShape(s, pos, l, p);
    case Parenthesis(c) => ParenthesisShape(s, pos, c, p);
    case Symbol(n) => SymbolShape(s, pos, n, p);
  }

  /** A token that starts right at the cursor spells what the call consumed,
      less the whitespace that ends a symbol. */
  lemma TokenSpelling(s: string, pos: nat, t: Token, p: nat)
    requires pos < |s| && !IsAsciiWhitespace(s[pos])
    requires NextToken(s, pos) == Step(Ok(Some(t)), p)
    ensures RemoveWhitespace(s[pos..p]) == Lexeme(t)
  {
    FirstCharDecidesKind(s, pos, pos);
    if IsAsciiDigit(s[pos]) {
      RunSpelling(s[pos..p]);
    } else if IsParenthesis(s[pos]) {
      assert s[pos..p] == [s[pos]];
    } else {
      SymbolSpelling(s, pos, SymbolRunEnd(s, pos), p);
    }
  }

  /** A digit/dot run has no whitespace to remove. */
  lemma RunSpelling(run: string)
    requires forall i :: 0 <= i < |run| ==> IsNumberChar(run[i])
    ensures RemoveWhitespace(run) == run
  {
    RemoveWhitespaceKeeps(run);
  }

  lemma SymbolSpelling(s: string, pos: nat, end: nat, p: nat)
    requires pos <= end <= |s| && end == SymbolRunEnd(s, pos)
    requires p == if end < |s| then end + 1 else end
    ensures RemoveWhitespace(s[pos..p]) == s[pos..end]
  {
    assert s[pos..p] == s[pos..end] + s[end..p];
    RemoveWhitespaceAppend(s[pos..end], s[end..p]);
    RemoveWhitespaceKeeps(s[pos..end]);
    RemoveWhitespaceDrops(s[end..p]);
  }

  /** What one call of `next` consumes, less its whitespace, is the lexeme of
      the token it returns. */
  lemma {:induction false} StepSpelling(s: string, pos: nat, t: Token, p: nat)
    requires pos <= |s| && NextToken(s, pos) == Step(Ok(Some(t)), p)
    ensures RemoveWhitespace(s[pos..p]) == Lexeme(t)
    decreases |s| - pos
  {
    if IsAsciiWhitespace(s[pos]) {
      SkipOne(s, pos);
      StepSpelling(s, pos + 1, t, p);
      assert pos + 1 <= NextToken(s, pos + 1).cursor == p;
      SkipSpelling(s, pos, p);
    } else {
      TokenSpelling(s, pos, t, p);
    }
  }

  /** A leading whitespace character contributes nothing to the spelling. */
  lemma SkipSpelling(s: string, pos: nat, p: nat)
    requires pos < p <= |s| && IsAsciiWhitespace(s[pos])
    ensures RemoveWhitespace(s[pos..p]) == RemoveWhitespace(s[pos + 1..p])
  {
    assert s[pos..p] == [s[pos]] + s[pos + 1..p];
  }

  /** The lexemes of the stream, in order, spell the input without its
      whitespace: nothing is lost, duplicated or reordered. */
  lemma {:induction false} SpellingFrom(s: string, pos: nat, ts: seq<Token>)
    requires pos <= |s| && TokenizeFrom(s, pos) == Ok(ts)
    ensures Spelling(ts) == RemoveWhitespace(s[pos..])
    decreases |s| - pos
  {
    var r := NextToken(s, pos);
    if r.result.value.None? {
      EndOfInputIff(s, pos);
      RemoveWhitespaceDrops(s[pos..]);
    } else {
      var rest := TokenizeFrom(s, r.cursor);
      SpellingFrom(s, r.cursor, rest.value);
      assert ts == [r.result.value.value] + rest.value;
      StepSpelling(s, pos, r.result.value.value, r.cursor);
      SpellingCons(s, pos, r.result.value.value, r.cursor, rest.value);
    }
  }

  /** One token in front of a stream whose spelling is already known. */
  lemma SpellingCons(s: string, pos: nat, t: Token, p: nat, rest: seq<Token>)
    requires pos <= p <= |s| && RemoveWhitespace(s[pos..p]) == Lexeme(t)
    requires Spelling(rest) == RemoveWhitespace(s[p..])
    ensures Spelling([t] + rest) == RemoveWhitespace(s[pos..])
  {
    assert ([t] + rest)[1..] == rest;
    assert s[pos..] == s[pos..p] + s[p..];
    RemoveWhitespaceAppend(s[pos..p], s[p..]);
  }

  lemma SpellingIsInputWithoutWhitespace(s: string, ts: seq<Token>)
    requires Tokenize(s) == Ok(ts)
    ensures Spelling(ts) == RemoveWhitespace(s)
  {
    SpellingFrom(s, 0, ts);
    assert s[0..] == s;
  }

  /** Every token of a successful stream is well formed. */
  lemma {:induction false} StreamWellFormed(s: string, pos: nat, ts: seq<Token>)
    requires pos <= |s| && TokenizeFrom(s, pos) == Ok(ts)
    ensures forall i :: 0 <= i < |ts| ==> WellFormed(ts[i])
    decreases |s| - pos
  {
    var r := NextToken(s, pos);
    if r.result.value.Some? {
      EmittedTokenWellFormed(s, pos);
      var rest := TokenizeFrom(s, r.cursor);
      StreamWellFormed(s, r.cursor, rest.value);
      assert ts == [r.result.value.value] + rest.value;
    }
  }

  /** The empty input, and any input made only of whitespace, yields no
      tokens; any other input yields a token or an error. */
  lemma WhitespaceOnlyIff(s: string)
    ensures Tokenize(s) == Ok([]) <==> AllWhitespace(s, 0, |s|)
  {
    EndOfInputIff(s, 0);
  }

  /** A failed stream names a digit/dot run of the input holding two dots or
      more. */
  lemma {:induction false} StreamErrorShape(s: string, pos: nat, run: string) returns (k: nat)
    requires pos <= |s| && TokenizeFrom(s, pos) == Err(InvalidNumber(run))
    ensures pos <= k && k + |run| <= |s| && s[k..k + |run|] == run
    ensures |run| > 0 && IsAsciiDigit(run[0]) && DotCount(run) >= 2
    decreases |s| - pos
  {
    var r := NextToken(s, pos);
    if r.result.Err? {
      InvalidNumberShape(s, pos, run, r.cursor);
      k := r.cursor - |run|;
    } else {
      k := StreamErrorShape(s, r.cursor, run);
    }
  }
}
