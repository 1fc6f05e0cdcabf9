/** The scanner of `src/js/Scanner.js`: one left-to-right pass from source text to tokens,
    with diagnostics returned as a list instead of being reported to the driver. */
module Scanner {
  import opened Wrappers
  import opened Tokens

  /** A scan diagnostic: the line it was reported on and its message. */
  datatype ScanError = ScanError(line: nat, message: string)

  datatype ScanResult = ScanResult(tokens: seq<Token>, errors: seq<ScanError>)

  /** The outcome of scanning one lexeme that starts at some position: where the next lexeme
      starts, the line counter after it, and the token or the diagnostic it produced. */
  datatype Step = Step(next: nat, line: nat, token: Option<Token>, error: Option<ScanError>)

  predicate IsDigit(c: char) { '0' <= c <= '9' }

  predicate IsAlpha(c: char) { ('a' <= c <= 'z') || ('A' <= c <= 'Z') || c == '_' }

  predicate IsAlphaNumeric(c: char) { IsAlpha(c) || IsDigit(c) }

  /** The reserved words. */
  const Keywords: map<string, TokenType> :=
    map["and" := And, "class" := Class, "else" := Else, "false" := False,
        "for" := For, "fun" := Fun, "if" := If, "nil" := Nil,
        "or" := Or, "print" := Print, "return" := Return, "super" := Super,
        "this" := This, "true" := True, "var" := Var, "while" := While]

  /** The token type of an identifier-shaped lexeme: its reserved word's type, else IDENTIFIER. */
  function KeywordType(text: string): (t: TokenType)
    ensures text in Keywords ==> t == Keywords[text]
    ensures text !in Keywords ==> t == Identifier
    ensures t != Eof
  {
    if text in Keywords then Keywords[text] else Identifier
  }

  // ---------------------------------------------------------------------------------------
  // Line counting

  /** The number of newline characters in `s`. */
  function Newlines(s: string): nat {
    if |s| == 0 then 0 else Newlines(s[..|s| - 1]) + (if s[|s| - 1] == '\n' then 1 else 0)
  }

  lemma {:induction false} NewlinesAppend(a: string, b: string)
    ensures Newlines(a + b) == Newlines(a) + Newlines(b)
    decreases |b|
  {
    if |b| == 0 {
      assert a + b == a;
    } else {
      var b' := b[..|b| - 1];
      assert (a + b)[..|a + b| - 1] == a + b';
      NewlinesAppend(a, b');
    }
  }

  /** Counting over adjacent slices adds up. */
  lemma NewlinesSplit(s: string, i: nat, j: nat, k: nat)
    requires i <= j <= k <= |s|
    ensures Newlines(s[i..k]) == Newlines(s[i..j]) + Newlines(s[j..k])
  {
    assert s[i..k] == s[i..j] + s[j..k];
    NewlinesAppend(s[i..j], s[j..k]);
  }

  /** A slice without a newline character adds no line. */
  lemma {:induction false} NoNewlines(s: string)
    requires forall k :: 0 <= k < |s| ==> s[k] != '\n'
    ensures Newlines(s) == 0
    decreases |s|
  {
    if |s| > 0 {
      NoNewlines(s[..|s| - 1]);
    }
  }

  // ---------------------------------------------------------------------------------------
  // Cursor helpers: `peek`, `peekNext` and `match` read the character at a position, and the
  // source's inner `while` loops become functions returning where the loop stops.

  /** `match(expected)` at position `i`: whether the character there is `expected`. */
  predicate MatchAt(src: string, i: nat, expected: char) {
    i < |src| && src[i] == expected
  }

  /** Where a run of digits starting at `i` ends (the loop of `number`). */
  function SkipDigits(src: string, i: nat): (j: nat)
    requires i <= |src|
    ensures i <= j <= |src|
    ensures forall k :: i <= k < j ==> IsDigit(src[k])
    ensures j == |src| || !IsDigit(src[j])
    decreases |src| - i
  {
    if i < |src| && IsDigit(src[i]) then SkipDigits(src, i + 1) else i
  }

  /** Where a run of letters, digits and underscores starting at `i` ends (`identifier`). */
  function SkipAlphaNumeric(src: string, i: nat): (j: nat)
    requires i <= |src|
    ensures i <= j <= |src|
    ensures forall k :: i <= k < j ==> IsAlphaNumeric(src[k])
    ensures j == |src| || !IsAlphaNumeric(src[j])
    decreases |src| - i
  {
    if i < |src| && IsAlphaNumeric(src[i]) then SkipAlphaNumeric(src, i + 1) else i
  }

  /** The first position at or after `i` holding `stop`, or the end of the source: where a line
      comment ends (at the newline, which is not consumed) and where the body of a string
      literal ends (at the closing quote). */
  function SkipUntil(src: string, i: nat, stop: char): (j: nat)
    requires i <= |src|
    ensures i <= j <= |src|
    ensures forall k :: i <= k < j ==> src[k] != stop
    ensures j == |src| || src[j] == stop
    decreases |src| - i
  {
    if i < |src| && src[i] != stop then SkipUntil(src, i + 1, stop) else i
  }

  // ---------------------------------------------------------------------------------------
  // Numbers

  /** The value of a run of decimal digits. */
  function DigitsValue(s: string): nat
    requires forall k :: 0 <= k < |s| ==> IsDigit(s[k])
  {
    if |s| == 0 then 0
    else
      assert IsDigit(s[|s| - 1]);
      10 * DigitsValue(s[..|s| - 1]) + ((s[|s| - 1] as int) - ('0' as int))
  }

  function Pow10(n: nat): (p: nat)
    ensures p > 0
  {
    if n == 0 then 1 else 10 * Pow10(n - 1)
  }

  /** The exact value of `digits` or `digits.digits`: what `parseFloat` approximates. */
  function DecimalValue(whole: string, fraction: string): real
    requires forall k :: 0 <= k < |whole| ==> IsDigit(whole[k])
    requires forall k :: 0 <= k < |fraction| ==> IsDigit(fraction[k])
  {
    DigitsValue(whole) as real + DigitsValue(fraction) as real / Pow10(|fraction|) as real
  }

  // ---------------------------------------------------------------------------------------
  // One lexeme

  /** A token whose lexeme is `src[start..next)`, as `addToken` builds it. */
  function MakeToken(src: string, start: nat, next: nat, line: nat, kind: TokenType, literal: LitValue): Step
    requires start <= next <= |src|
  {
    Step(next, line, Some(Token(kind, src[start..next], literal, line)), None)
  }

  /** `string`: the opening quote is at `start`. The line counter moves past every newline inside
      the literal, and the token carries the line on which the literal ends. */
  function ScanString(src: string, start: nat, line: nat): (r: Step)
    requires start < |src| && src[start] == '"'
    ensures start < r.next <= |src|
    ensures r.line == line + Newlines(src[start..r.next])
  {
    var close := SkipUntil(src, start + 1, '"');
    var line' := line + Newlines(src[start + 1..close]);
    assert src[start..close] == [src[start]] + src[start + 1..close];
    NewlinesAppend([src[start]], src[start + 1..close]);
    assert Newlines([src[start]]) == 0 by { assert [src[start]][..0] == []; }
    if close == |src| then
      Step(close, line', None, Some(ScanError(line', "Unterminated string.")))
    else
      assert src[start..close + 1] == src[start..close] + [src[close]];
      NewlinesAppend(src[start..close], [src[close]]);
      assert Newlines([src[close]]) == 0 by { assert [src[close]][..0] == []; }
      MakeToken(src, start, close + 1, line', String, LStr(src[start + 1..close]))
  }

  /** `number`: a maximal digit run, extended by `.digits` only when a digit follows the dot. */
  function ScanNumber(src: string, start: nat, line: nat): (r: Step)
    requires start < |src| && IsDigit(src[start])
    ensures start < r.next <= |src|
    ensures r.line == line
    ensures forall k :: start <= k < r.next ==> src[k] != '\n'
    ensures var whole := SkipDigits(src, start);
      var fraction := whole + 1 < |src| && src[whole] == '.' && IsDigit(src[whole + 1]);
      && r.token.Some? && r.token.value.kind == Number && r.error.None?
      && r.next == (if fraction then SkipDigits(src, whole + 1) else whole)
      && (r.next == |src| || !IsDigit(src[r.next]))
      && (!fraction ==> r.token.value.literal == LNum(DigitsValue(src[start..whole]) as real))
  {
    assert SkipDigits(src, start) == SkipDigits(src, start + 1);
    var whole := SkipDigits(src, start + 1);
    if MatchAt(src, whole, '.') && whole + 1 < |src| && IsDigit(src[whole + 1]) then
      var end := SkipDigits(src, whole + 1);
      MakeToken(src, start, end, line, Number, LNum(DecimalValue(src[start..whole], src[whole + 1..end])))
    else
      MakeToken(src, start, whole, line, Number, LNum(DecimalValue(src[start..whole], "")))
  }

  /** `identifier`: a maximal alphanumeric run, classified through the keyword table. */
  function ScanIdentifier(src: string, start: nat, line: nat): (r: Step)
    requires start < |src| && IsAlpha(src[start])
    ensures start < r.next <= |src|
    ensures r.line == line
    ensures forall k :: start <= k < r.next ==> src[k] != '\n'
    ensures r.token.Some? && r.error.None? && r.token.value.lexeme == src[start..r.next]
    ensures r.next == |src| || !IsAlphaNumeric(src[r.next])
    ensures r.token.value.kind != Identifier <==> r.token.value.lexeme in Keywords
    ensures r.token.value.lexeme in Keywords ==> r.token.value.kind == Keywords[r.token.value.lexeme]
  {
    assert forall w :: w in Keywords ==> Keywords[w] != Identifier;
    var end := SkipAlphaNumeric(src, start + 1);
    MakeToken(src, start, end, line, KeywordType(src[start..end]), LNil)
  }

  /** The token type of a one-character lexeme that never looks ahead. */
  function SingleCharType(c: char): (t: Option<TokenType>)
    ensures t.Some? ==> t.value != Eof
  {
    match c
    case '(' => Some(LeftParen)
    case ')' => Some(RightParen)
    case '{' => Some(LeftBrace)
    case '}' => Some(RightBrace)
    case ',' => Some(Comma)
    case '.' => Some(Dot)
    case '-' => Some(Minus)
    case '+' => Some(Plus)
    case ';' => Some(Semicolon)
    case '*' => Some(Star)
    case _ => None
  }

  /** For `!`, `=`, `<` and `>`: the token type alone and followed by `=`. */
  function OperatorTypes(c: char): (t: Option<(TokenType, TokenType)>)
    ensures t.Some? ==> t.value.0 != Eof && t.value.1 != Eof
  {
    match c
    case '!' => Some((Bang, BangEqual))
    case '=' => Some((Equal, EqualEqual))
    case '<' => Some((Less, LessEqual))
    case '>' => Some((Greater, GreaterEqual))
    case _ => None
  }

  /** `scanToken`: scans the lexeme starting at `start`. Every token's lexeme is exactly the
      source text it was scanned from, no scanned token is EOF, and the line counter grows by
      the number of newlines consumed. */
  function ScanToken(src: string, start: nat, line: nat): (r: Step)
    requires start < |src|
    ensures start < r.next <= |src|
    ensures r.token.Some? ==> r.token.value.lexeme == src[start..r.next] && r.token.value.kind != Eof
    ensures r.token.Some? ==> r.error.None?
    ensures r.line == line + Newlines(src[start..r.next])
  {
    var c := src[start];
    var r: Step :=
      if SingleCharType(c).Some? then
        MakeToken(src, start, start + 1, line, SingleCharType(c).value, LNil)
      else if OperatorTypes(c).Some? then
        var (alone, withEqual) := OperatorTypes(c).value;
        if MatchAt(src, start + 1, '=') then MakeToken(src, start, start + 2, line, withEqual, LNil)
        else MakeToken(src, start, start + 1, line, alone, LNil)
      else if c == '/' then
        if MatchAt(src, start + 1, '/') then Step(SkipUntil(src, start + 2, '\n'), line, None, None)
        else MakeToken(src, start, start + 1, line, Slash, LNil)
      else if c == ' ' || c == '\r' || c == '\t' then
        Step(start + 1, line, None, None)
      else if c == '\n' then
        Step(start + 1, line + 1, None, None)
      else if c == '"' then
        ScanString(src, start, line)
      else if IsDigit(c) then
        ScanNumber(src, start, line)
      else if IsAlpha(c) then
        ScanIdentifier(src, start, line)
      else
        Step(start + 1, line, None, Some(ScanError(line, "Unexpected character " + [c])));
    LineAccounting(src, start, r, line);
    r
  }

  /** The line bookkeeping of `ScanToken`, case by case. */
  lemma LineAccounting(src: string, start: nat, r: Step, line: nat)
    requires start < r.next <= |src|
    requires src[start] == '"' ==> r.line == line + Newlines(src[start..r.next])
    requires src[start] != '"' && src[start] != '\n' ==> r.line == line
    requires src[start] == '\n' ==> r.next == start + 1 && r.line == line + 1
    requires src[start] != '"' ==> forall k :: start <= k < r.next && k != start ==> src[k] != '\n'
    ensures r.line == line + Newlines(src[start..r.next])
  {
    if src[start] != '"' {
      NewlinesSplit(src, start, start + 1, r.next);
      NoNewlines(src[start + 1..r.next]);
      assert src[start..start + 1] == [src[start]];
      assert [src[start]][..0] == [];
    }
  }

  // ---------------------------------------------------------------------------------------
  // The whole pass

  /** A lexeme step as the pass uses it: from the source, a start position and the line
      counter, the `Step` of the lexeme there. The pass below is stated for any step that keeps
      the promises of `ScanToken`, and `ScanTokens` runs it with `ScanToken` itself. */
  type Lexer = (string, nat, nat) --> Step

  /** The promises of `ScanToken` that the pass relies on, at one position. */
  ghost predicate StepKeeps(lex: Lexer, src: string, start: nat, line: nat) {
    && lex.requires(src, start, line)
    && var step := lex(src, start, line);
    && start < step.next <= |src|
    && (step.token.Some? ==> step.token.value.kind != Eof)
    && step.line == line + Newlines(src[start..step.next])
  }

  ghost predicate IsLexer(lex: Lexer) {
    forall src: string, start: nat, line: nat :: start < |src| ==> StepKeeps(lex, src, start, line)
  }

  /** The loop of `scanTokens` from position `current`, with `tokens` and `errors` produced so
      far; `line` is one more than the number of newlines before `current`. The pass ends with
      one EOF token carrying the final line. */
  function ScanFrom(lex: Lexer, src: string, current: nat, line: nat, tokens: seq<Token>, errors: seq<ScanError>): (r: ScanResult)
    requires IsLexer(lex)
    requires current <= |src|
    requires line == 1 + Newlines(src[..current])
    ensures |r.tokens| > |tokens|
    ensures r.tokens[|r.tokens| - 1] == Token(Eof, "", LNil, 1 + Newlines(src))
    decreases |src| - current
  {
    if current >= |src| then
      assert src[..current] == src;
      ScanResult(tokens + [Token(Eof, "", LNil, line)], errors)
    else
      assert StepKeeps(lex, src, current, line);
      var step := lex(src, current, line);
      LinesSoFar(src, current, step.next, line, step.line);
      var tokens' := tokens + (if step.token.Some? then [step.token.value] else []);
      var errors' := errors + (if step.error.Some? then [step.error.value] else []);
      ScanFrom(lex, src, step.next, step.line, tokens', errors')
  }

  /** Tokens produced so far are kept in front, and only the final token is EOF. */
  lemma {:induction false} ScanFromTokens(lex: Lexer, src: string, current: nat, line: nat, tokens: seq<Token>, errors: seq<ScanError>)
    requires IsLexer(lex)
    requires current <= |src|
    requires line == 1 + Newlines(src[..current])
    requires forall i :: 0 <= i < |tokens| ==> tokens[i].kind != Eof
    ensures var r := ScanFrom(lex, src, current, line, tokens, errors);
      && r.tokens[..|tokens|] == tokens
      && forall i :: 0 <= i < |r.tokens| - 1 ==> r.tokens[i].kind != Eof
    decreases |src| - current
  {
    if current < |src| {
      assert StepKeeps(lex, src, current, line);
      var step := lex(src, current, line);
      LinesSoFar(src, current, step.next, line, step.line);
      var tokens' := tokens + (if step.token.Some? then [step.token.value] else []);
      var errors' := errors + (if step.error.Some? then [step.error.value] else []);
      ScanFromTokens(lex, src, step.next, step.line, tokens', errors');
      var r := ScanFrom(lex, src, step.next, step.line, tokens', errors');
      assert r.tokens[..|tokens|] == r.tokens[..|tokens'|][..|tokens|];
    }
  }

  /** `ScanToken` keeps the promises the pass relies on. */
  lemma ScanTokenIsLexer()
    ensures IsLexer(ScanToken)
  {
    forall src: string, start: nat, line: nat | start < |src|
      ensures StepKeeps(ScanToken, src, start, line)
    {
      var step := ScanToken(src, start, line);
    }
  }

  /** The line counter stays one more than the number of newlines consumed so far. */
  lemma LinesSoFar(src: string, current: nat, next: nat, line: nat, line': nat)
    requires current <= next <= |src|
    requires line == 1 + Newlines(src[..current])
    requires line' == line + Newlines(src[current..next])
    ensures line' == 1 + Newlines(src[..next])
  {
    NewlinesSplit(src, 0, current, next);
    assert src[0..current] == src[..current] && src[0..next] == src[..next];
  }

  /** `scanTokens`: the token list always ends with exactly one EOF token, added after the loop
      and carrying the final line number, which is one more than the number of newlines in the
      source: every newline, inside a string or not, is counted exactly once. */
  function ScanTokens(src: string): (r: ScanResult)
    ensures |r.tokens| > 0
    ensures r.tokens[|r.tokens| - 1] == Token(Eof, "", LNil, 1 + Newlines(src))
    ensures forall i :: 0 <= i < |r.tokens| - 1 ==> r.tokens[i].kind != Eof
  {
    ScanTokenIsLexer();
    ScanFromStart(ScanToken, src);
    ScanFrom(ScanToken, src, 0, 1, [], [])
  }

  /** The pass started at the beginning of the source, for any lexer. */
  lemma ScanFromStart(lex: Lexer, src: string)
    requires IsLexer(lex)
    ensures 1 == 1 + Newlines(src[..0])
    ensures var r := ScanFrom(lex, src, 0, 1, [], []);
      && |r.tokens| > 0
      && r.tokens[|r.tokens| - 1] == Token(Eof, "", LNil, 1 + Newlines(src))
      && forall i :: 0 <= i < |r.tokens| - 1 ==> r.tokens[i].kind != Eof
  {
    assert src[..0] == [];
    ScanFromTokens(lex, src, 0, 1, [], []);
  }

  // ---------------------------------------------------------------------------------------
  // What each kind of lexeme scans to

  /** `!`, `=`, `<` and `>` followed by `=` make one two-character token; otherwise the
      one-character token. */
  lemma TwoCharacterOperators(src: string, start: nat, line: nat)
    requires start < |src| && src[start] in "!=<>"
    ensures var r := ScanToken(src, start, line);
      var twoChar := start + 1 < |src| && src[start + 1] == '=';
      && r.token.Some? && r.error.None?
      && r.next == (if twoChar then start + 2 else start + 1)
      && r.token.value.kind == (match src[start]
           case '!' => if twoChar then BangEqual else Bang
           case '=' => if twoChar then EqualEqual else Equal
           case '<' => if twoChar then LessEqual else Less
           case _ => if twoChar then GreaterEqual else Greater)
  {
  }

  /** `//` consumes everything up to, but not including, the next newline and emits nothing;
      a lone `/` is SLASH. */
  lemma Slashes(src: string, start: nat, line: nat)
    requires start < |src| && src[start] == '/'
    ensures var r := ScanToken(src, start, line);
      if start + 1 < |src| && src[start + 1] == '/' then
        && r.token.None? && r.error.None? && r.line == line
        && (r.next == |src| || src[r.next] == '\n')
        && forall k :: start <= k < r.next ==> src[k] != '\n'
      else
        r.token == Some(Token(Slash, "/", LNil, line)) && r.next == start + 1
  {
    assert src[start..start + 1] == [src[start]];
  }

  /** Space, carriage return and tab emit nothing; a newline emits nothing and bumps the line. */
  lemma Whitespace(src: string, start: nat, line: nat)
    requires start < |src| && src[start] in " \r\t\n"
    ensures var r := ScanToken(src, start, line);
      && r.token.None? && r.error.None? && r.next == start + 1
      && r.line == (if src[start] == '\n' then line + 1 else line)
  {
  }

  /** A terminated string's literal is the text strictly between its quotes. */
  lemma TerminatedStrings(src: string, start: nat, line: nat)
    requires start < |src| && src[start] == '"'
    requires exists k :: start < k < |src| && src[k] == '"'
    ensures var r := ScanToken(src, start, line);
      && r.error.None? && r.token.Some?
      && r.token.value.kind == String
      && src[r.next - 1] == '"'
      && r.token.value.literal == LStr(src[start + 1..r.next - 1])
      && (forall k :: start < k < r.next - 1 ==> src[k] != '"')
  {
    assert ScanToken(src, start, line) == ScanString(src, start, line);
    ClosingQuote(src, start, line);
  }

  lemma ClosingQuote(src: string, start: nat, line: nat)
    requires start < |src| && src[start] == '"'
    requires exists k :: start < k < |src| && src[k] == '"'
    ensures var r := ScanString(src, start, line);
      && r.error.None? && r.token.Some?
      && r.token.value.kind == String
      && src[r.next - 1] == '"'
      && r.token.value.literal == LStr(src[start + 1..r.next - 1])
      && (forall k :: start < k < r.next - 1 ==> src[k] != '"')
  {
    var k :| start < k < |src| && src[k] == '"';
    assert SkipUntil(src, start + 1, '"') <= k;
  }

  /** An unterminated string reports 'Unterminated string.', emits no token and consumes the
      rest of the source. */
  lemma UnterminatedStrings(src: string, start: nat, line: nat)
    requires start < |src| && src[start] == '"'
    requires forall k :: start < k < |src| ==> src[k] != '"'
    ensures var r := ScanToken(src, start, line);
      && r.token.None? && r.next == |src|
      && r.error == Some(ScanError(r.line, "Unterminated string."))
  {
    assert ScanToken(src, start, line) == ScanString(src, start, line);
  }

  /** A number is a maximal digit run, extended by a dot and a second maximal digit run only when
      a digit follows the dot: `1.` scans as NUMBER `1`, leaving the dot for the next token. */
  lemma NumberLiterals(src: string, start: nat, line: nat)
    requires start < |src| && IsDigit(src[start])
    ensures var r := ScanToken(src, start, line);
      var whole := SkipDigits(src, start);
      var fraction := whole + 1 < |src| && src[whole] == '.' && IsDigit(src[whole + 1]);
      && r.token.Some? && r.token.value.kind == Number
      && r.next == (if fraction then SkipDigits(src, whole + 1) else whole)
      && (r.next == |src| || !IsDigit(src[r.next]))
      && (!fraction ==> r.token.value.literal == LNum(DigitsValue(src[start..whole]) as real))
  {
    assert SingleCharType(src[start]).None? && OperatorTypes(src[start]).None?;
    assert ScanToken(src, start, line) == ScanNumber(src, start, line);
  }

  /** An identifier-shaped lexeme is maximal, and its token is a reserved word's type exactly
      when the lexeme is one of the reserved words, IDENTIFIER otherwise. */
  lemma IdentifiersAndKeywords(src: string, start: nat, line: nat)
    requires start < |src| && IsAlpha(src[start])
    ensures var r := ScanToken(src, start, line);
      && r.token.Some?
      && (r.next == |src| || !IsAlphaNumeric(src[r.next]))
      && (r.token.value.kind != Identifier <==> r.token.value.lexeme in Keywords)
      && (r.token.value.lexeme in Keywords ==> r.token.value.kind == Keywords[r.token.value.lexeme])
  {
    assert !IsDigit(src[start]) && SingleCharType(src[start]).None? && OperatorTypes(src[start]).None?;
    assert ScanToken(src, start, line) == ScanIdentifier(src, start, line);
  }

  /** Any other character is reported on the current line and skipped; scanning goes on. */
  lemma UnexpectedCharacters(src: string, start: nat, line: nat)
    requires start < |src|
    requires var c := src[start];
      SingleCharType(c).None? && OperatorTypes(c).None? && c !in "/ \r\t\n\"" && !IsAlphaNumeric(c)
    ensures var r := ScanToken(src, start, line);
      && r.token.None? && r.next == start + 1 && r.line == line
      && r.error == Some(ScanError(line, "Unexpected character " + [src[start]]))
  {
  }

  /** `1.` is a number followed by a dot. */
  lemma TrailingDot()
    ensures ScanTokens("1.").tokens ==
      [Token(Number, "1", LNum(1.0), 1), Token(Dot, ".", LNil, 1), Token(Eof, "", LNil, 1)]
  {
    ScanTokenIsLexer();
    TrailingDotSteps();
    TrailingDotPass(ScanToken);
  }

  /** The pass over `1.` with any lexer that splits it as `ScanToken` does. */
  lemma TrailingDotPass(lex: Lexer)
    requires IsLexer(lex)
    requires lex.requires("1.", 0, 1) && lex("1.", 0, 1) == Step(1, 1, Some(Token(Number, "1", LNum(1.0), 1)), None)
    requires lex.requires("1.", 1, 1) && lex("1.", 1, 1) == Step(2, 1, Some(Token(Dot, ".", LNil, 1)), None)
    ensures ScanFrom(lex, "1.", 0, 1, [], []).tokens ==
      [Token(Number, "1", LNum(1.0), 1), Token(Dot, ".", LNil, 1), Token(Eof, "", LNil, 1)]
  {
    var one := Token(Number, "1", LNum(1.0), 1);
    var dot := Token(Dot, ".", LNil, 1);
    assert "1."[..0] == [] && "1."[..1] == "1" && "1."[..2] == "1.";
    assert Newlines("1.") == 0 by { assert "1."[..1] == "1" && "1"[..0] == []; }
    assert ScanFrom(lex, "1.", 2, 1, [one, dot], []).tokens == [one, dot, Token(Eof, "", LNil, 1)];
    assert ScanFrom(lex, "1.", 1, 1, [one], []) == ScanFrom(lex, "1.", 2, 1, [one, dot], []);
    assert ScanFrom(lex, "1.", 0, 1, [], []) == ScanFrom(lex, "1.", 1, 1, [one], []);
  }

  /** The two lexemes of `1.`. */
  lemma TrailingDotSteps()
    ensures ScanToken("1.", 0, 1) == Step(1, 1, Some(Token(Number, "1", LNum(1.0), 1)), None)
    ensures ScanToken("1.", 1, 1) == Step(2, 1, Some(Token(Dot, ".", LNil, 1)), None)
  {
    var src := "1.";
    assert SkipDigits(src, 1) == 1;
    assert src[0..1] == "1";
    assert DigitsValue("1") == 10 * DigitsValue("") + 1 by { assert "1"[..0] == ""; }
    assert src[1] == '.' && SingleCharType('.') == Some(Dot);
    assert src[1..2] == ".";
  }

  // ---------------------------------------------------------------------------------------
  // The keyword table as written

  /** The names every plain JS object inherits from `Object.prototype`. */
  const PrototypeMembers: set<string> :=
    {"constructor", "hasOwnProperty", "isPrototypeOf", "propertyIsEnumerable", "toLocaleString",
     "toString", "valueOf", "__proto__", "__defineGetter__", "__defineSetter__",
     "__lookupGetter__", "__lookupSetter__"}

  /** What a property read `keywords[text]` on a plain object literal finds. */
  datatype PropertyRead = OwnProperty(kind: TokenType) | InheritedMember(name: string) | Missing

  function KeywordsPropertyRead(text: string): PropertyRead {
    if text in Keywords then OwnProperty(Keywords[text])
    else if text in PrototypeMembers then InheritedMember(text)
    else Missing
  }

  /** `identifier` as written: the table is read as a plain object and only a falsy result falls
      back to IDENTIFIER. An inherited member is a function, which is truthy, so the token gets a
      type that is no token type at all (`None` here). */
  function IdentifierTypeAsWritten(text: string): (t: Option<TokenType>)
    ensures t.None? <==> text in PrototypeMembers && text !in Keywords
  {
    match KeywordsPropertyRead(text)
    case OwnProperty(k) => Some(k)
    case InheritedMember(_) => None
    case Missing => Some(Identifier)
  }

  /** The as-written lookup agrees with the intended one exactly off the inherited names;
      `KeywordType` (used by the scanner above) looks at the table's own entries only. */
  lemma KeywordLookupAgreement(text: string)
    ensures IdentifierTypeAsWritten(text) == Some(KeywordType(text)) <==> text !in PrototypeMembers || text in Keywords
  {
  }

  /** `toString` is an identifier, but the as-written lookup finds the inherited method. */
  lemma KeywordLookupFinding()
    ensures IdentifierTypeAsWritten("toString") == None && KeywordType("toString") == Identifier
  {
    assert "toString" !in Keywords;
  }
}
