/**
 * The scanner (KixScanner.kt): a cursor over the source text that appends
 * tokens to a list. `start` marks the beginning of the current lexeme,
 * `current` the next character to read and `line` the line counter.
 *
 * `NextLexeme` states, as a function of the text, what one call of
 * `scanToken` does at a position; `TokensFrom` and `DiagnosticsFrom`
 * iterate it. The class methods are proved to produce exactly those, and
 * `TokensFromLexed` states what each token is: its lexeme is exactly the
 * characters it was scanned from, its kind agrees with the lexeme, it is
 * the longest token the next characters allow, and its line is one more
 * than the newlines before its end.
 */
module Lexer {
  import opened Tokens
  import opened Reports

  predicate IsDigit(c: char) { '0' <= c <= '9' }

  predicate IsAlpha(c: char) { ('a' <= c <= 'z') || ('A' <= c <= 'Z') || c == '_' }

  predicate IsAlphaNumeric(c: char) { IsAlpha(c) || IsDigit(c) }

  /**
   * The scanner's keyword table, entry by entry: each entry maps a keyword
   * kind's spelling to that kind.
   */
  const Keywords: seq<TokenType> :=
    [And, Class, Else, False, For, Fun, If, Nil, Or, Print, Return, Super, This, True, Var, While]

  /** The kind of the first entry from `i` on that spells `text`, or Identifier when there is none. */
  function KeywordFrom(text: string, i: nat): TokenType
    decreases |Keywords| - i
  {
    if i >= |Keywords| then Identifier
    else if Spelling(Keywords[i]) == text then Keywords[i]
    else KeywordFrom(text, i + 1)
  }

  /**
   * The keyword table lookup: the keyword kind an identifier run spells,
   * or Identifier when it spells none.
   */
  function IdentifierKind(text: string): TokenType
  {
    KeywordFrom(text, 0)
  }

  /** The single-character punctuation `(){},.-+;*`. */
  predicate IsPunctuation(c: char)
  {
    c == '(' || c == ')' || c == '{' || c == '}' || c == ',' || c == '.' || c == '-' || c == '+' || c == ';' || c == '*'
  }

  /** The characters that start a one- or two-character operator: `!`, `=`, `<`, `>`. */
  predicate IsOperatorStart(c: char)
  {
    c == '!' || c == '=' || c == '<' || c == '>'
  }

  /** Blanks: space, carriage return, tab and newline. */
  predicate IsBlank(c: char)
  {
    c == ' ' || c == '\r' || c == '\t' || c == '\n'
  }

  /** Every entry of the table is a keyword kind. */
  lemma KeywordEntry(i: nat)
    requires i < |Keywords|
    ensures IsKeyword(Keywords[i])
  {
  }

  lemma {:induction false} KeywordFromSound(text: string, i: nat)
    ensures KeywordFrom(text, i) == Identifier
            || (IsKeyword(KeywordFrom(text, i)) && Spelling(KeywordFrom(text, i)) == text)
    decreases |Keywords| - i
  {
    if i < |Keywords| {
      if Spelling(Keywords[i]) == text {
        KeywordEntry(i);
      } else {
        KeywordFromSound(text, i + 1);
      }
    }
  }

  /** A run that the table types as a keyword is that keyword's spelling. */
  lemma IdentifierKindSound(text: string)
    ensures IdentifierKind(text) == Identifier
            || (IsKeyword(IdentifierKind(text)) && Spelling(IdentifierKind(text)) == text)
  {
    KeywordFromSound(text, 0);
  }

  /** Every keyword kind has an entry in the table. */
  lemma KeywordListed(k: TokenType)
    requires IsKeyword(k)
    ensures k in Keywords
  {
  }

  /** No two keyword kinds share a spelling. */
  lemma SpellingInjective(a: TokenType, b: TokenType)
    requires IsKeyword(a) && IsKeyword(b) && Spelling(a) == Spelling(b)
    ensures a == b
  {
    var first := Spelling(a)[0];
    if first <= 'e' {
      SpellingInjectiveFrom(a, b, 'a', 'e');
    } else if first <= 'o' {
      SpellingInjectiveFrom(a, b, 'f', 'o');
    } else if first <= 's' {
      SpellingInjectiveFrom(a, b, 'p', 's');
    } else {
      SpellingInjectiveFrom(a, b, 't', 'w');
    }
  }

  /** Injectivity among the keywords whose first letter lies in `[lo, hi]`. */
  lemma SpellingInjectiveFrom(a: TokenType, b: TokenType, lo: char, hi: char)
    requires IsKeyword(a) && IsKeyword(b) && Spelling(a) == Spelling(b)
    requires lo <= Spelling(a)[0] <= hi && hi as int - lo as int < 10
    ensures a == b
  {
  }

  lemma {:induction false} KeywordFromComplete(text: string, i: nat, j: nat)
    requires i <= j < |Keywords| && Spelling(Keywords[j]) == text
    ensures KeywordFrom(text, i) != Identifier
    decreases j - i
  {
    if Spelling(Keywords[i]) == text {
      KeywordEntry(i);
    } else {
      KeywordFromComplete(text, i + 1, j);
    }
  }

  lemma IdentifierKindComplete(k: TokenType)
    requires IsKeyword(k)
    ensures IdentifierKind(Spelling(k)) == k
  {
    KeywordListed(k);
    var j :| 0 <= j < |Keywords| && Keywords[j] == k;
    KeywordFromComplete(Spelling(k), 0, j);
    IdentifierKindSound(Spelling(k));
    SpellingInjective(IdentifierKind(Spelling(k)), k);
  }

  /** `peek` and `peekNext`: the character at `i`, or NUL past the end of the text. */
  function CharAt(s: string, i: nat): char
  {
    if i < |s| then s[i] else '\0'
  }

  /** The number of newline characters among the first `n` characters of `s`. */
  function NewlineCount(s: string, n: nat): nat
    requires n <= |s|
  {
    if n == 0 then 0 else NewlineCount(s, n - 1) + (if s[n - 1] == '\n' then 1 else 0)
  }

  /** The end of the run of digits that starts at `i`. */
  function DigitsEnd(s: string, i: nat): (j: nat)
    requires i <= |s|
    ensures i <= j <= |s|
    ensures forall k :: i <= k < j ==> IsDigit(s[k])
    ensures j == |s| || !IsDigit(s[j])
    decreases |s| - i
  {
    if i == |s| || !IsDigit(s[i]) then i else DigitsEnd(s, i + 1)
  }

  /** The end of the run of letters, digits and underscores that starts at `i`. */
  function WordEnd(s: string, i: nat): (j: nat)
    requires i <= |s|
    ensures i <= j <= |s|
    ensures forall k :: i <= k < j ==> IsAlphaNumeric(s[k])
    ensures j == |s| || !IsAlphaNumeric(s[j])
    decreases |s| - i
  {
    if i == |s| || !IsAlphaNumeric(s[i]) then i else WordEnd(s, i + 1)
  }

  /** The first index at or after `i` holding `c`, or the end of the text. */
  function Find(s: string, i: nat, c: char): (j: nat)
    requires i <= |s|
    ensures i <= j <= |s|
    ensures forall k :: i <= k < j ==> s[k] != c
    ensures j < |s| ==> s[j] == c
    decreases |s| - i
  {
    if i == |s| || s[i] == c then i else Find(s, i + 1, c)
  }

  /** Whether a block comment's closing star-slash pair starts at `k`. */
  predicate ClosesAt(s: string, k: nat)
  {
    CharAt(s, k) == '*' && CharAt(s, k + 1) == '/'
  }

  /** The first star-slash pair at or after `i` (block comments do not nest), or the end of the text. */
  function CommentClose(s: string, i: nat): (k: nat)
    requires i <= |s|
    ensures i <= k <= |s|
    ensures forall j :: i <= j < k ==> !ClosesAt(s, j)
    ensures k < |s| ==> k + 1 < |s| && s[k] == '*' && s[k + 1] == '/'
    decreases |s| - i
  {
    if i == |s| || ClosesAt(s, i) then i else CommentClose(s, i + 1)
  }

  /** Any index that ends the digit run from `i` is `DigitsEnd(s, i)`. */
  lemma {:induction false} DigitsEndAt(s: string, i: nat, j: nat)
    requires i <= j <= |s|
    requires forall k :: i <= k < j ==> IsDigit(s[k])
    requires j == |s| || !IsDigit(s[j])
    ensures DigitsEnd(s, i) == j
    decreases j - i
  {
    if i < j {
      DigitsEndAt(s, i + 1, j);
    }
  }

  lemma {:induction false} WordEndAt(s: string, i: nat, j: nat)
    requires i <= j <= |s|
    requires forall k :: i <= k < j ==> IsAlphaNumeric(s[k])
    requires j == |s| || !IsAlphaNumeric(s[j])
    ensures WordEnd(s, i) == j
    decreases j - i
  {
    if i < j {
      WordEndAt(s, i + 1, j);
    }
  }

  lemma {:induction false} FindAt(s: string, i: nat, j: nat, c: char)
    requires i <= j <= |s|
    requires forall k :: i <= k < j ==> s[k] != c
    requires j == |s| || s[j] == c
    ensures Find(s, i, c) == j
    decreases j - i
  {
    if i < j {
      FindAt(s, i + 1, j, c);
    }
  }

  lemma {:induction false} CommentCloseAt(s: string, i: nat, k: nat)
    requires i <= k <= |s|
    requires forall j :: i <= j < k ==> !ClosesAt(s, j)
    requires k == |s| || ClosesAt(s, k)
    ensures CommentClose(s, i) == k
    decreases k - i
  {
    if i < k {
      CommentCloseAt(s, i + 1, k);
    }
  }

  /** A digit run, optionally followed by `.` and a second, non-empty digit run. */
  predicate IsNumberLexeme(x: string)
  {
    var d := DigitsEnd(x, 0);
    0 < d && (d == |x| || (x[d] == '.' && d + 1 < |x| && DigitsEnd(x, d + 1) == |x|))
  }

  /** A letter or `_` followed by letters, digits or `_`. */
  predicate IsIdentifierLexeme(s: string)
  {
    |s| > 0 && IsAlpha(s[0]) && forall i :: 0 < i < |s| ==> IsAlphaNumeric(s[i])
  }

  /** Text between two double quotes, with no double quote inside. */
  predicate IsStringLexeme(s: string)
  {
    |s| >= 2 && s[0] == '"' && s[|s| - 1] == '"' && forall i :: 0 < i < |s| - 1 ==> s[i] != '"'
  }

  /** What a token's kind says about its lexeme and literal. */
  ghost predicate WellFormed(t: Token, toNumber: string -> real)
  {
    if t.kind == String then IsStringLexeme(t.lexeme) && t.literal == Str(t.lexeme[1..|t.lexeme| - 1])
    else if t.kind == Number then IsNumberLexeme(t.lexeme) && t.literal == Num(toNumber(t.lexeme))
    else if t.kind == Identifier then IsIdentifierLexeme(t.lexeme) && IdentifierKind(t.lexeme) == Identifier && t.literal == Null
    else t.kind !in {QuestionMark, Colon, Eof} && t.lexeme == Spelling(t.kind) && t.literal == Null
  }

  /**
   * A token that ends at `e` is the longest the text allows: a one-character
   * `!`, `=`, `<`, `>` is not followed by `=`, a `/` by `/` or `*`, a number
   * by a digit (nor, without a fraction, by `.` and a digit), and a word by
   * a letter, digit or `_`.
   */
  ghost predicate Maximal(source: string, t: Token, e: nat)
  {
    var next := CharAt(source, e);
    if t.kind in {Bang, Equal, Less, Greater} then next != '='
    else if t.kind == Slash then next != '/' && next != '*'
    else if t.kind == Number then
      !IsDigit(next) && ('.' !in t.lexeme ==> !(next == '.' && IsDigit(CharAt(source, e + 1))))
    else if t.kind == Identifier || IsKeyword(t.kind) then !IsAlphaNumeric(next)
    else true
  }

  /** Token `t` was scanned from `source[s..e]`. */
  ghost predicate Lexed(source: string, toNumber: string -> real, t: Token, s: nat, e: nat)
  {
    s < e <= |source| && t.lexeme == source[s..e] && WellFormed(t, toNumber) && Maximal(source, t, e)
    && t.line == 1 + NewlineCount(source, e)
  }

  lemma LexedString(source: string, toNumber: string -> real, s: nat, e: nat, line: int)
    requires s + 2 <= e <= |source| && source[s] == '"' && source[e - 1] == '"'
    requires forall k :: s < k < e - 1 ==> source[k] != '"'
    requires line == 1 + NewlineCount(source, e)
    ensures Lexed(source, toNumber, Token(String, source[s..e], Str(source[s + 1..e - 1]), line), s, e)
  {
    var lexeme := source[s..e];
    var inner, value := lexeme[1..e - s - 1], source[s + 1..e - 1];
    forall k | 0 <= k < |inner| ensures inner[k] == value[k] {
      assert inner[k] == lexeme[k + 1];
    }
    assert inner == value;
  }

  lemma LexedInteger(source: string, toNumber: string -> real, s: nat, e: nat, line: int)
    requires s < e <= |source| && forall k :: s <= k < e ==> IsDigit(source[k])
    requires !IsDigit(CharAt(source, e)) && !(CharAt(source, e) == '.' && IsDigit(CharAt(source, e + 1)))
    requires line == 1 + NewlineCount(source, e)
    ensures Lexed(source, toNumber, Token(Number, source[s..e], Num(toNumber(source[s..e])), line), s, e)
  {
    var lexeme := source[s..e];
    assert forall k :: 0 <= k < |lexeme| ==> lexeme[k] == source[s + k];
    DigitsEndAt(lexeme, 0, |lexeme|);
    assert '.' !in lexeme;
  }

  lemma LexedFraction(source: string, toNumber: string -> real, s: nat, d: nat, e: nat, line: int)
    requires s < d && d + 1 < e <= |source| && source[d] == '.'
    requires forall k :: s <= k < d ==> IsDigit(source[k])
    requires forall k :: d + 1 <= k < e ==> IsDigit(source[k])
    requires !IsDigit(CharAt(source, e))
    requires line == 1 + NewlineCount(source, e)
    ensures Lexed(source, toNumber, Token(Number, source[s..e], Num(toNumber(source[s..e])), line), s, e)
  {
    var lexeme, p := source[s..e], d - s;
    assert forall k :: 0 <= k < |lexeme| ==> lexeme[k] == source[s + k];
    DigitsEndAt(lexeme, 0, p);
    DigitsEndAt(lexeme, p + 1, |lexeme|);
  }

  lemma LexedWord(source: string, toNumber: string -> real, s: nat, e: nat, line: int)
    requires s < e <= |source| && IsAlpha(source[s])
    requires forall k :: s < k < e ==> IsAlphaNumeric(source[k])
    requires e == |source| || !IsAlphaNumeric(source[e])
    requires line == 1 + NewlineCount(source, e)
    ensures Lexed(source, toNumber, Token(IdentifierKind(source[s..e]), source[s..e], Null, line), s, e)
  {
    var text := source[s..e];
    IdentifierKindSound(text);
    assert IsIdentifierLexeme(text) by {
      forall k | 0 < k < |text| ensures IsAlphaNumeric(text[k]) {
        assert text[k] == source[s + k];
      }
    }
    assert !IsAlphaNumeric(CharAt(source, e));
  }

  /** Kinds whose token is complete after its spelling, whatever follows. */
  predicate Unextendable(k: TokenType)
  {
    k in {LeftParen, RightParen, LeftBrace, RightBrace, Comma, Dot, Minus, Plus, Semicolon, Star,
          BangEqual, EqualEqual, LessEqual, GreaterEqual}
  }

  lemma PunctuationSpelling(c: char)
    requires IsPunctuation(c)
    ensures Unextendable(PunctuationKind(c)) && Spelling(PunctuationKind(c)) == [c]
  {
  }

  lemma LexedUnextendable(source: string, toNumber: string -> real, s: nat, e: nat, k: TokenType, line: int)
    requires s < e <= |source| && Unextendable(k) && source[s..e] == Spelling(k)
    requires line == 1 + NewlineCount(source, e)
    ensures Lexed(source, toNumber, Token(k, source[s..e], Null, line), s, e)
  {
  }

  lemma LexedPunctuation(source: string, toNumber: string -> real, s: nat, line: int)
    requires s < |source| && IsPunctuation(source[s])
    requires line == 1 + NewlineCount(source, s + 1)
    ensures Lexed(source, toNumber, Token(PunctuationKind(source[s]), source[s..s + 1], Null, line), s, s + 1)
  {
    PunctuationSpelling(source[s]);
    assert source[s..s + 1] == [source[s]];
    LexedUnextendable(source, toNumber, s, s + 1, PunctuationKind(source[s]), line);
  }

  lemma OperatorSpelling(c: char, followedByEqual: bool)
    requires IsOperatorStart(c)
    ensures followedByEqual ==> Unextendable(OperatorKind(c, true)) && Spelling(OperatorKind(c, true)) == [c, '=']
    ensures !followedByEqual ==>
      OperatorKind(c, false) in {Bang, Equal, Less, Greater} && Spelling(OperatorKind(c, false)) == [c]
  {
  }

  lemma LexedOperator(source: string, toNumber: string -> real, s: nat, followedByEqual: bool, line: int)
    requires s < |source| && IsOperatorStart(source[s])
    requires followedByEqual == (CharAt(source, s + 1) == '=')
    requires line == 1 + NewlineCount(source, s + (if followedByEqual then 2 else 1))
    ensures var e := s + (if followedByEqual then 2 else 1);
      Lexed(source, toNumber, Token(OperatorKind(source[s], followedByEqual), source[s..e], Null, line), s, e)
  {
    var c := source[s];
    OperatorSpelling(c, followedByEqual);
    if followedByEqual {
      assert source[s..s + 2] == [c, '='];
      LexedUnextendable(source, toNumber, s, s + 2, OperatorKind(c, true), line);
    } else {
      assert source[s..s + 1] == [c];
    }
  }

  lemma LexedSlash(source: string, toNumber: string -> real, s: nat, line: int)
    requires s < |source| && source[s] == '/'
    requires CharAt(source, s + 1) != '/' && CharAt(source, s + 1) != '*'
    requires line == 1 + NewlineCount(source, s + 1)
    ensures Lexed(source, toNumber, Token(Slash, source[s..s + 1], Null, line), s, s + 1)
  {
    assert source[s..s + 1] == "/";
  }

  /** The digits from a digit at `s` run up to `d`, where no digit stands. */
  lemma DigitRun(source: string, s: nat) returns (d: nat)
    requires s < |source| && IsDigit(source[s])
    ensures d == DigitsEnd(source, s + 1) && s < d <= |source|
    ensures forall k :: s <= k < d ==> IsDigit(source[k])
    ensures !IsDigit(CharAt(source, d))
    ensures NumberEnd(source, s + 1) == if CharAt(source, d) == '.' && IsDigit(CharAt(source, d + 1)) then DigitsEnd(source, d + 1) else d
  {
    d := DigitsEnd(source, s + 1);
  }

  lemma LexedNumber(source: string, toNumber: string -> real, s: nat)
    requires s < |source| && IsDigit(source[s])
    ensures var e := NumberEnd(source, s + 1);
      Lexed(source, toNumber, Token(Number, source[s..e], Num(toNumber(source[s..e])), 1 + NewlineCount(source, e)), s, e)
  {
    var d := DigitRun(source, s);
    if CharAt(source, d) == '.' && IsDigit(CharAt(source, d + 1)) {
      var e := DigitsEnd(source, d + 1);
      assert !IsDigit(CharAt(source, e));
      LexedFraction(source, toNumber, s, d, e, 1 + NewlineCount(source, e));
    } else {
      LexedInteger(source, toNumber, s, d, 1 + NewlineCount(source, d));
    }
  }

  /** The characters `scanToken` recognises; anything else is reported and skipped. */
  predicate Recognised(c: char)
  {
    IsPunctuation(c) || IsOperatorStart(c) || c == '/' || IsBlank(c) || c == '"' || IsDigit(c) || IsAlpha(c)
  }

  /** The kind `!`, `=`, `<` or `>` scans to, given whether `=` follows. */
  function OperatorKind(c: char, followedByEqual: bool): TokenType
  {
    match c
    case '!' => if followedByEqual then BangEqual else Bang
    case '=' => if followedByEqual then EqualEqual else Equal
    case '<' => if followedByEqual then LessEqual else Less
    case _ => if followedByEqual then GreaterEqual else Greater
  }

  /** The kind of a single-character punctuation token. */
  function PunctuationKind(c: char): TokenType
  {
    match c
    case '(' => LeftParen case ')' => RightParen
    case '{' => LeftBrace case '}' => RightBrace
    case ',' => Comma case '.' => Dot case '-' => Minus
    case '+' => Plus case ';' => Semicolon case _ => Star
  }

  /** The end of a number lexeme whose first digit precedes `i`: digits, then `.` and digits if a digit follows the `.`. */
  function NumberEnd(s: string, i: nat): (e: nat)
    requires i <= |s|
    ensures i <= e <= |s|
  {
    var d := DigitsEnd(s, i);
    if CharAt(s, d) == '.' && IsDigit(CharAt(s, d + 1)) then DigitsEnd(s, d + 1) else d
  }

  /**
   * What one call of `scanToken` does at position `s`: emit a token, skip a
   * blank or a comment, or report an error; `end` is where the next lexeme
   * starts.
   */
  datatype Step =
    | Emit(kind: TokenType, literal: Literal, end: nat)
    | Skip(end: nat)
    | Report(message: string, end: nat)

  /** After a `/`: a line comment, a block comment (closed or not), or the slash operator. */
  function SlashStep(source: string, s: nat): (r: Step)
    requires s < |source|
    ensures s < r.end <= |source|
  {
    if CharAt(source, s + 1) == '/' then Skip(Find(source, s + 2, '\n'))
    else if CharAt(source, s + 1) == '*' then
      var k := CommentClose(source, s + 2);
      if k < |source| then Skip(k + 2)
      else Report("Unclosed multiline comment: \n" + source[s..|source| - 1], |source|)
    else Emit(Slash, Null, s + 1)
  }

  /** After a `"`: the string up to the next `"`, or the report that none follows. */
  function StringStep(source: string, s: nat): (r: Step)
    requires s < |source|
    ensures s < r.end <= |source|
  {
    var q := Find(source, s + 1, '"');
    if q < |source| then Emit(String, Str(source[s + 1..q]), q + 1)
    else Report("Unterminated string: " + source[s..|source|], |source|)
  }

  /** After a digit: the number lexeme and its decimal value. */
  function NumberStep(source: string, toNumber: string -> real, s: nat): (r: Step)
    requires s < |source|
    ensures s < r.end <= |source|
  {
    var e := NumberEnd(source, s + 1);
    Emit(Number, Num(toNumber(source[s..e])), e)
  }

  /** After a letter: the word, typed by the keyword table. */
  function WordStep(source: string, s: nat): (r: Step)
    requires s < |source|
    ensures s < r.end <= |source|
  {
    var e := WordEnd(source, s + 1);
    Emit(IdentifierKind(source[s..e]), Null, e)
  }

  /** The word step, spelled out: the word runs up to `e` and is typed by the keyword table. */
  lemma WordStepIs(source: string, s: nat) returns (e: nat)
    requires s < |source|
    ensures e == WordEnd(source, s + 1)
    ensures WordStep(source, s) == Emit(IdentifierKind(source[s..e]), Null, e)
  {
    e := WordEnd(source, s + 1);
  }

  /** A step that emits a token without a literal adds that one token and no diagnostic. */
  lemma EmitTokens(source: string, s: nat, r: Step, kind: TokenType, e: nat, line: int)
    requires s < e <= |source| && r == Emit(kind, Null, e) && line == 1 + NewlineCount(source, e)
    ensures StepTokens(source, s, r) == [Token(kind, source[s..e], Null, line)]
    ensures StepReports(source, r) == []
  {
  }

  /** The scanner's dispatch on the character at `s`, as a function of the text. */
  function NextLexeme(source: string, toNumber: string -> real, s: nat): (r: Step)
    requires s < |source|
    ensures s < r.end <= |source|
  {
    var c := source[s];
    if IsPunctuation(c) then Emit(PunctuationKind(c), Null, s + 1)
    else if IsOperatorStart(c) then
      if CharAt(source, s + 1) == '=' then Emit(OperatorKind(c, true), Null, s + 2)
      else Emit(OperatorKind(c, false), Null, s + 1)
    else if c == '/' then SlashStep(source, s)
    else if IsBlank(c) then Skip(s + 1)
    else if c == '"' then StringStep(source, s)
    else if IsDigit(c) then NumberStep(source, toNumber, s)
    else if IsAlpha(c) then WordStep(source, s)
    else Report("Unexpected character: \"" + [c] + "\"", s + 1)
  }

  /** The token a step emits, if any; its line is the line the scanner has reached at `end`. */
  function StepTokens(source: string, s: nat, r: Step): seq<Token>
    requires s < r.end <= |source|
  {
    if r.Emit? then [Token(r.kind, source[s..r.end], r.literal, 1 + NewlineCount(source, r.end))] else []
  }

  /** The diagnostic a step reports, if any. */
  function StepReports(source: string, r: Step): seq<Diagnostic>
    requires r.end <= |source|
  {
    if r.Report? then [CompileError(1 + NewlineCount(source, r.end), "", r.message)] else []
  }

  /** The tokens scanned from position `i` to the end of the text. */
  function TokensFrom(source: string, toNumber: string -> real, i: nat): seq<Token>
    requires i <= |source|
    decreases |source| - i
  {
    if i == |source| then []
    else var r := NextLexeme(source, toNumber, i); StepTokens(source, i, r) + TokensFrom(source, toNumber, r.end)
  }

  /** The source range of each token of `TokensFrom(source, toNumber, i)`. */
  function SpansFrom(source: string, toNumber: string -> real, i: nat): seq<(nat, nat)>
    requires i <= |source|
    decreases |source| - i
  {
    if i == |source| then []
    else var r := NextLexeme(source, toNumber, i); (if r.Emit? then [(i, r.end)] else []) + SpansFrom(source, toNumber, r.end)
  }

  /** The diagnostics reported while scanning from position `i`. */
  function DiagnosticsFrom(source: string, toNumber: string -> real, i: nat): seq<Diagnostic>
    requires i <= |source|
    decreases |source| - i
  {
    if i == |source| then []
    else var r := NextLexeme(source, toNumber, i); StepReports(source, r) + DiagnosticsFrom(source, toNumber, r.end)
  }

  /** The end-of-input token, on the last line. */
  function EndToken(source: string): Token
  {
    Token(Eof, "", Null, 1 + NewlineCount(source, |source|))
  }

  /** The whole token list of a text. */
  function Scan(source: string, toNumber: string -> real): seq<Token>
  {
    TokensFrom(source, toNumber, 0) + [EndToken(source)]
  }

  /** Every token a step emits was scanned from the characters the step consumed. */
  lemma NextLexemeLexed(source: string, toNumber: string -> real, s: nat)
    requires s < |source|
    ensures var r := NextLexeme(source, toNumber, s);
      r.Emit? ==> Lexed(source, toNumber, StepTokens(source, s, r)[0], s, r.end)
  {
    var c := source[s];
    if IsPunctuation(c) {
      NextIsPunctuation(source, toNumber, s);
      LexedPunctuation(source, toNumber, s, 1 + NewlineCount(source, s + 1));
    } else if IsOperatorStart(c) {
      var eq := CharAt(source, s + 1) == '=';
      NextIsOperator(source, toNumber, s, eq);
      LexedOperator(source, toNumber, s, eq, 1 + NewlineCount(source, if eq then s + 2 else s + 1));
    } else if c == '/' {
      NextIsSlash(source, toNumber, s);
      if CharAt(source, s + 1) != '/' && CharAt(source, s + 1) != '*' {
        LexedSlash(source, toNumber, s, 1 + NewlineCount(source, s + 1));
      }
    } else if IsBlank(c) {
      NextIsBlank(source, toNumber, s);
    } else if c == '"' {
      NextIsString(source, toNumber, s);
      var q := Find(source, s + 1, '"');
      if q < |source| {
        LexedString(source, toNumber, s, q + 1, 1 + NewlineCount(source, q + 1));
      }
    } else if IsDigit(c) {
      NextIsNumber(source, toNumber, s);
      LexedNumber(source, toNumber, s);
    } else if IsAlpha(c) {
      NextIsWord(source, toNumber, s);
      var e := WordEnd(source, s + 1);
      LexedWord(source, toNumber, s, e, 1 + NewlineCount(source, e));
    } else {
      NextIsUnexpected(source, toNumber, s);
    }
  }

  /**
   * Every token scanned from `i` on was scanned from its span, and the spans
   * lie in order after `i`.
   */
  lemma {:induction false} TokensFromLexed(source: string, toNumber: string -> real, i: nat)
    requires i <= |source|
    ensures var tokens, spans := TokensFrom(source, toNumber, i), SpansFrom(source, toNumber, i);
      |spans| == |tokens|
      && (forall k :: 0 <= k < |tokens| ==> i <= spans[k].0 && Lexed(source, toNumber, tokens[k], spans[k].0, spans[k].1))
      && (forall j, k :: 0 <= j < k < |tokens| ==> spans[j].1 <= spans[k].0)
    decreases |source| - i
  {
    if i < |source| {
      var r := NextLexeme(source, toNumber, i);
      TokensFromLexed(source, toNumber, r.end);
      if r.Emit? {
        NextLexemeLexed(source, toNumber, i);
        LexedCons(source, toNumber, i, r.end, StepTokens(source, i, r)[0],
          TokensFrom(source, toNumber, r.end), SpansFrom(source, toNumber, r.end));
      }
    }
  }

  /** A token lexed at `[s, e)`, put in front of tokens lexed in order after `e`, keeps them in order after `s`. */
  lemma LexedCons(source: string, toNumber: string -> real, s: nat, e: nat, t: Token, rest: seq<Token>, restSpans: seq<(nat, nat)>)
    requires Lexed(source, toNumber, t, s, e)
    requires |restSpans| == |rest|
    requires forall k :: 0 <= k < |rest| ==> e <= restSpans[k].0 && Lexed(source, toNumber, rest[k], restSpans[k].0, restSpans[k].1)
    requires forall j, k :: 0 <= j < k < |rest| ==> restSpans[j].1 <= restSpans[k].0
    ensures var tokens, spans := [t] + rest, [(s, e)] + restSpans;
      |spans| == |tokens|
      && (forall k :: 0 <= k < |tokens| ==> s <= spans[k].0 && Lexed(source, toNumber, tokens[k], spans[k].0, spans[k].1))
      && (forall j, k :: 0 <= j < k < |tokens| ==> spans[j].1 <= spans[k].0)
  {
    var tokens, spans := [t] + rest, [(s, e)] + restSpans;
    forall k | 0 < k < |tokens| ensures tokens[k] == rest[k - 1] && spans[k] == restSpans[k - 1] {
    }
  }

  /**
   * The scanner's output ends with the end-of-input token on the last line,
   * and no other token is an end-of-input token.
   */
  lemma ScanEndsWithEof(source: string, toNumber: string -> real)
    ensures var tokens := Scan(source, toNumber);
      |tokens| > 0 && tokens[|tokens| - 1] == EndToken(source)
      && forall k :: 0 <= k < |tokens| - 1 ==> tokens[k].kind != Eof
  {
    TokensFromLexed(source, toNumber, 0);
    var tokens := Scan(source, toNumber);
    assert forall k :: 0 <= k < |tokens| - 1 ==> tokens[k] == TokensFrom(source, toNumber, 0)[k];
  }

  // The step taken at each kind of first character, one lemma per branch of the dispatch.

  lemma NextIsPunctuation(source: string, toNumber: string -> real, s: nat)
    requires s < |source| && IsPunctuation(source[s])
    ensures var r := NextLexeme(source, toNumber, s);
      r.end == s + 1 && StepReports(source, r) == []
      && StepTokens(source, s, r) == [Token(PunctuationKind(source[s]), source[s..s + 1], Null, 1 + NewlineCount(source, s + 1))]
  {
  }

  lemma NextIsOperator(source: string, toNumber: string -> real, s: nat, followedByEqual: bool)
    requires s < |source| && IsOperatorStart(source[s])
    requires followedByEqual <==> s + 1 < |source| && source[s + 1] == '='
    ensures var r, e := NextLexeme(source, toNumber, s), if followedByEqual then s + 2 else s + 1;
      r.end == e && StepReports(source, r) == []
      && StepTokens(source, s, r) == [Token(OperatorKind(source[s], followedByEqual), source[s..e], Null, 1 + NewlineCount(source, e))]
  {
  }

  lemma NextIsSlash(source: string, toNumber: string -> real, s: nat)
    requires s < |source| && source[s] == '/'
    ensures NextLexeme(source, toNumber, s) == SlashStep(source, s)
  {
  }

  lemma NextIsBlank(source: string, toNumber: string -> real, s: nat)
    requires s < |source| && IsBlank(source[s])
    ensures var r := NextLexeme(source, toNumber, s);
      r.end == s + 1 && StepReports(source, r) == [] && StepTokens(source, s, r) == []
  {
  }

  lemma NextIsString(source: string, toNumber: string -> real, s: nat)
    requires s < |source| && source[s] == '"'
    ensures NextLexeme(source, toNumber, s) == StringStep(source, s)
  {
  }

  lemma NextIsNumber(source: string, toNumber: string -> real, s: nat)
    requires s < |source| && IsDigit(source[s])
    ensures NextLexeme(source, toNumber, s) == NumberStep(source, toNumber, s)
  {
  }

  lemma NextIsWord(source: string, toNumber: string -> real, s: nat)
    requires s < |source| && IsAlpha(source[s])
    ensures NextLexeme(source, toNumber, s) == WordStep(source, s)
  {
  }

  lemma NextIsUnexpected(source: string, toNumber: string -> real, s: nat)
    requires s < |source| && !Recognised(source[s])
    ensures var r := NextLexeme(source, toNumber, s);
      r.end == s + 1 && StepTokens(source, s, r) == []
      && StepReports(source, r) == [CompileError(1 + NewlineCount(source, s + 1), "", "Unexpected character: \"" + [source[s]] + "\"")]
  {
  }

  /** One step of the scanning loop: what remains after one lexeme, appended to what was produced. */
  lemma ScanStep(source: string, toNumber: string -> real, i: nat, tokens: seq<Token>, diagnostics: seq<Diagnostic>)
    requires i < |source|
    ensures var r := NextLexeme(source, toNumber, i);
      tokens + TokensFrom(source, toNumber, i) == (tokens + StepTokens(source, i, r)) + TokensFrom(source, toNumber, r.end)
      && diagnostics + DiagnosticsFrom(source, toNumber, i) == (diagnostics + StepReports(source, r)) + DiagnosticsFrom(source, toNumber, r.end)
  {
  }

  class KixScanner {
    const source: string
    const toNumber: string -> real
    const reporter: Reporter
    var tokens: seq<Token>
    var start: nat
    var current: nat
    var line: int

    /** `line` counts the newlines read so far. */
    ghost predicate LineOk()
      reads this
    {
      current <= |source| && line == 1 + NewlineCount(source, current)
    }

    /**
     * The lexeme starting at `start` has been scanned with step `r`: `current`
     * is past it, and exactly its token and its diagnostic (if any) were
     * added to `tokens0` and `diagnostics0`.
     */
    ghost predicate Took(r: Step, tokens0: seq<Token>, diagnostics0: seq<Diagnostic>)
      reads this, reporter
    {
      start < r.end <= |source| && LineOk() && current == r.end
      && tokens == tokens0 + StepTokens(source, start, r)
      && reporter.diagnostics == diagnostics0 + StepReports(source, r)
    }

    constructor (source: string, toNumber: string -> real, reporter: Reporter)
      ensures this.source == source && this.toNumber == toNumber && this.reporter == reporter
      ensures tokens == [] && start == 0 && current == 0 && line == 1
      ensures LineOk()
    {
      this.source := source;
      this.toNumber := toNumber;
      this.reporter := reporter;
      tokens := [];
      start := 0;
      current := 0;
      line := 1;
    }

    function IsAtEnd(): bool
      reads this
    {
      current >= |source|
    }

    function Peek(): char
      reads this
    {
      CharAt(source, current)
    }

    function PeekNext(): char
      reads this
    {
      CharAt(source, current + 1)
    }

    /**
     * Scans the rest of the text and appends the end-of-input token, which
     * carries the final line count.
     */
    method ScanTokens() returns (result: seq<Token>)
      requires start == current && LineOk()
      modifies this`start, this`current, this`line, this`tokens, reporter
      ensures result == tokens
      ensures tokens == old(tokens) + TokensFrom(source, toNumber, old(current)) + [EndToken(source)]
      ensures reporter.diagnostics == old(reporter.diagnostics) + DiagnosticsFrom(source, toNumber, old(current))
    {
      while !IsAtEnd()
        invariant start == current && LineOk() && old(current) <= current
        invariant old(tokens) + TokensFrom(source, toNumber, old(current)) == tokens + TokensFrom(source, toNumber, current)
        invariant old(reporter.diagnostics) + DiagnosticsFrom(source, toNumber, old(current))
                  == reporter.diagnostics + DiagnosticsFrom(source, toNumber, current)
        decreases |source| - current
      {
        ghost var from, tokens0, diagnostics0 := current, tokens, reporter.diagnostics;
        ScanToken();
        ScanStep(source, toNumber, from, tokens0, diagnostics0);
        start := current;
      }
      tokens := tokens + [Token(Eof, "", Null, line)];
      result := tokens;
    }

    /** Scans one lexeme starting at `start`. */
    method ScanToken()
      requires start == current < |source| && LineOk()
      modifies this`current, this`line, this`tokens, reporter
      ensures Took(NextLexeme(source, toNumber, start), old(tokens), old(reporter.diagnostics))
    {
      var c := Advance();
      if IsPunctuation(c) {
        NextIsPunctuation(source, toNumber, start);
        AddToken(PunctuationKind(c));
      } else if IsOperatorStart(c) {
        ScanOperator(c);
      } else if c == '/' {
        NextIsSlash(source, toNumber, start);
        ScanSlash();
      } else if IsBlank(c) {
        NextIsBlank(source, toNumber, start);
        if c == '\n' {
          line := line + 1;
        }
      } else if c == '"' {
        NextIsString(source, toNumber, start);
        ScanString();
      } else if IsDigit(c) {
        NextIsNumber(source, toNumber, start);
        ScanNumber();
      } else if IsAlpha(c) {
        NextIsWord(source, toNumber, start);
        ScanIdentifier();
      } else {
        NextIsUnexpected(source, toNumber, start);
        reporter.Error(line, "Unexpected character: \"" + [c] + "\"");
      }
    }

    /** The `!`, `=`, `<` and `>` branches: the operator, with `=` appended when one follows. */
    method ScanOperator(c: char)
      requires LineOk() && current == start + 1 <= |source| && source[start] == c && IsOperatorStart(c)
      modifies this`current, this`tokens
      ensures Took(NextLexeme(source, toNumber, start), old(tokens), old(reporter.diagnostics))
    {
      var m := Match('=');
      NextIsOperator(source, toNumber, start, m);
      AddToken(OperatorKind(c, m));
    }

    /** The `/` branch: a line comment, a block comment, or the slash operator. */
    method ScanSlash()
      requires LineOk() && current == start + 1 <= |source| && source[start] == '/'
      modifies this`current, this`line, this`tokens, reporter
      ensures Took(SlashStep(source, start), old(tokens), old(reporter.diagnostics))
    {
      var m := Match('/');
      if m {
        LineComment();
      } else {
        m := Match('*');
        if m {
          MultilineComment();
        } else {
          AddToken(Slash);
        }
      }
    }

    method Advance() returns (c: char)
      requires current < |source|
      modifies this`current
      ensures current == old(current) + 1 && c == source[old(current)]
    {
      c := source[current];
      current := current + 1;
    }

    /** Appends a token with no literal whose lexeme is `source[start..current]`. */
    method AddToken(kind: TokenType)
      requires start < current <= |source|
      modifies this`tokens
      ensures tokens == old(tokens) + [Token(kind, source[start..current], Null, line)]
    {
      AddLiteralToken(kind, Null);
    }

    /** Appends a token whose lexeme is `source[start..current]`. */
    method AddLiteralToken(kind: TokenType, literal: Literal)
      requires start < current <= |source|
      modifies this`tokens
      ensures tokens == old(tokens) + [Token(kind, source[start..current], literal, line)]
    {
      tokens := tokens + [Token(kind, source[start..current], literal, line)];
    }

    /** Consumes the next character only when it is `expected`. */
    method Match(expected: char) returns (matched: bool)
      requires current <= |source|
      modifies this`current
      ensures matched <==> old(current) < |source| && source[old(current)] == expected
      ensures current == old(current) + (if matched then 1 else 0)
    {
      if IsAtEnd() { return false; }
      if source[current] != expected { return false; }
      current := current + 1;
      return true;
    }

    /** A line comment, opened by the two slashes just read: it runs up to, not including, the next newline. */
    method LineComment()
      requires LineOk() && start + 2 == current <= |source|
      modifies this`current
      ensures LineOk() && current == Find(source, start + 2, '\n')
    {
      while Peek() != '\n' && !IsAtEnd()
        invariant start + 2 <= current <= |source| && LineOk()
        invariant forall k :: start + 2 <= k < current ==> source[k] != '\n'
        decreases |source| - current
      {
        var _ := Advance();
      }
      FindAt(source, start + 2, current, '\n');
    }

    /**
     * A string literal: everything up to the next `"`, newlines included.
     * Unterminated, it is reported and no token is emitted.
     */
    method ScanString()
      requires LineOk() && current == start + 1 <= |source| && source[start] == '"'
      modifies this`current, this`line, this`tokens, reporter
      ensures Took(StringStep(source, start), old(tokens), old(reporter.diagnostics))
    {
      SkipToQuote();
      ghost var r := StringStep(source, start);
      if IsAtEnd() {
        assert r == Report("Unterminated string: " + source[start..current], current);
        reporter.Error(line, "Unterminated string: " + source[start..current]);
        return;
      }
      var _ := Advance();
      var value := source[start + 1..current - 1];
      assert r == Emit(String, Str(value), current);
      AddLiteralToken(String, Str(value));
    }

    /** Consumes the string body up to the closing `"` or the end of the text, counting its newlines. */
    method SkipToQuote()
      requires LineOk()
      modifies this`current, this`line
      ensures LineOk() && current == Find(source, old(current), '"')
    {
      while Peek() != '"' && !IsAtEnd()
        invariant old(current) <= current <= |source| && LineOk()
        invariant forall k :: old(current) <= k < current ==> source[k] != '"'
        decreases |source| - current
      {
        if Peek() == '\n' { line := line + 1; }
        var _ := Advance();
      }
      FindAt(source, old(current), current, '"');
    }

    /** A digit run with an optional fraction, taken only when `.` is followed by a digit. */
    method ScanNumber()
      requires LineOk() && current == start + 1 <= |source| && IsDigit(source[start])
      modifies this`current, this`tokens
      ensures Took(NumberStep(source, toNumber, start), old(tokens), old(reporter.diagnostics))
    {
      SkipDigits();
      if Peek() == '.' && IsDigit(PeekNext()) {
        var _ := Advance();
        SkipDigits();
      }
      var r := NumberStep(source, toNumber, start);
      assert r.end == current;
      AddLiteralToken(Number, r.literal);
    }

    /** Consumes the digits from `current` on. */
    method SkipDigits()
      requires LineOk()
      modifies this`current
      ensures LineOk() && current == DigitsEnd(source, old(current))
    {
      while IsDigit(Peek())
        invariant old(current) <= current <= |source| && LineOk()
        invariant forall k :: old(current) <= k < current ==> IsDigit(source[k])
        decreases |source| - current
      {
        var _ := Advance();
      }
      DigitsEndAt(source, old(current), current);
    }

    /** An identifier run, typed by the keyword table. */
    method ScanIdentifier()
      requires LineOk() && current == start + 1 <= |source| && IsAlpha(source[start])
      modifies this`current, this`tokens
      ensures Took(WordStep(source, start), old(tokens), old(reporter.diagnostics))
    {
      SkipWord();
      ghost var end := WordStepIs(source, start);
      var kind := IdentifierKind(source[start..current]);
      AddToken(kind);
      EmitTokens(source, start, WordStep(source, start), kind, current, line);
    }

    /** Consumes the letters, digits and underscores from `current` on. */
    method SkipWord()
      requires LineOk()
      modifies this`current
      ensures LineOk() && current == WordEnd(source, old(current))
    {
      while IsAlphaNumeric(Peek())
        invariant old(current) <= current <= |source| && LineOk()
        invariant forall k :: old(current) <= k < current ==> IsAlphaNumeric(source[k])
        decreases |source| - current
      {
        var _ := Advance();
      }
      WordEndAt(source, old(current), current);
    }

    /**
     * A block comment, opened by the slash-star pair just read: it closes at
     * the first star-slash pair and emits no token; reaching the end of the
     * text inside it is reported.
     */
    method MultilineComment()
      requires LineOk() && current == start + 2 <= |source| && source[start] == '/' && source[start + 1] == '*'
      modifies this`current, this`line, reporter
      ensures LineOk()
      ensures var k := CommentClose(source, start + 2);
        if k < |source| then
          current == k + 2 && reporter.diagnostics == old(reporter.diagnostics)
        else
          current == |source|
          && reporter.diagnostics == old(reporter.diagnostics) + [CompileError(line, "", "Unclosed multiline comment: \n" + source[start..|source| - 1])]
    {
      while !(Peek() == '*' && PeekNext() == '/') && !IsAtEnd()
        invariant start + 2 <= current <= |source| && LineOk()
        invariant reporter.diagnostics == old(reporter.diagnostics)
        invariant forall j :: start + 2 <= j < current ==> !ClosesAt(source, j)
        decreases |source| - current
      {
        if Peek() == '\n' { line := line + 1; }
        var _ := Advance();
      }
      CommentCloseAt(source, start + 2, current);
      if IsAtEnd() {
        reporter.Error(line, "Unclosed multiline comment: \n" + source[start..current - 1]);
        return;
      }
      var _ := Advance();
      var _ := Advance();
    }
  }
}
