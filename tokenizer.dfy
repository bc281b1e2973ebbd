/**
 * The lexer of the assembler. A character-level state machine turns raw
 * source text into one token group per non-blank line; a second state
 * machine, keyed on the kind of the previous token, checks which kind may
 * follow which.
 *
 * Each operation is given twice: a specification function over values
 * (`Append`, `Step`, `Run`, `Lex`, `ValidateGroup`, `ValidateGroups`) and
 * the method that does the work step by step as the source does
 * (`AppendToken`, `Tokenize`, `ValidateTokens`), proved equal to it.
 * Every error ends the run: the first error met is the result.
 */
module Tokenizer {
  import opened Utils
  import opened Kinds

  datatype Token = Token(kind: TokenType, value: string, line: int)

  // The fixed values of the punctuation tokens.
  const PercentValue: string := "PERCENT(%)"
  const DollarValue: string := "DOLLAR($)"
  const EqualValue: string := "EQUAL(=)"
  const ColonValue: string := "COLON(:)"
  const CommaValue: string := "COMMA(,)"
  const NewlineValue: string := "NEWLINE(\\n)"

  predicate IsHexDigit(c: char) {
    ('0' <= c <= '9') || ('a' <= c <= 'f') || ('A' <= c <= 'F')
  }

  predicate AllHex(s: string) {
    forall i :: 0 <= i < |s| ==> IsHexDigit(s[i])
  }

  /** Characters that are accumulated into the pending buffer. */
  predicate IsWordChar(c: char) {
    ('a' <= c <= 'z') || ('A' <= c <= 'Z') || ('0' <= c <= '9') || c == '_' || c == '-' || c == '.'
  }

  predicate IsBlank(c: char) {
    c == ' ' || c == '\t'
  }

  predicate IsPunctuation(c: char) {
    c == '%' || c == '$' || c == '=' || c == ':' || c == ','
  }

  /** Every character the lexer accepts; any other one is an error. */
  predicate IsLexical(c: char) {
    IsBlank(c) || IsPunctuation(c) || c == '\n' || IsWordChar(c)
  }

  /**
   * The kind a flushed buffer receives, decided by the previous punctuation:
   * after `$` it must be 4 hex digits, after `%` 2 hex digits, otherwise it
   * is a symbol.
   */
  function ValidateString(s: string, previous: TokenType, line: int): (r: Result<TokenType>)
    ensures r == Ok(TK_ADDRESS) <==> previous == TK_DOLLAR && AllHex(s) && |s| == 4
    ensures r == Ok(TK_LITERAL) <==> previous == TK_PERCENT && AllHex(s) && |s| == 2
    ensures r == Ok(TK_SYMBOL) <==> previous != TK_DOLLAR && previous != TK_PERCENT
    ensures r.Err? <==> ((previous == TK_DOLLAR && !(AllHex(s) && |s| == 4))
                      || (previous == TK_PERCENT && !(AllHex(s) && |s| == 2)))
    ensures r.Err? ==> r.error == Error(ER_UNRECOGNIZED_NUM, line)
  {
    match previous
    case TK_DOLLAR =>
      if AllHex(s) && |s| == 4 then Ok(TK_ADDRESS) else Err(Error(ER_UNRECOGNIZED_NUM, line))
    case TK_PERCENT =>
      if AllHex(s) && |s| == 2 then Ok(TK_LITERAL) else Err(Error(ER_UNRECOGNIZED_NUM, line))
    case _ => Ok(TK_SYMBOL)
  }

  /** The lexer's variables between two characters. */
  datatype LexState = LexState(
    buffer: string,           // currentString
    previous: TokenType,      // previousTokenType
    line: int,                // currentLine
    group: seq<Token>,        // tokenGroup
    groups: seq<seq<Token>>)  // tokens

  const Start: LexState := LexState("", TK_SYMBOL, 1, [], [])

  /**
   * appendToken: flush the buffer (if it is not empty) as a token of the
   * kind ValidateString decides, then emit the punctuation token.
   */
  function Append(st: LexState, kind: TokenType, value: string): Result<LexState>
  {
    var emitted := Token(kind, value, st.line);
    if |st.buffer| == 0 then
      Ok(st.(previous := kind, group := st.group + [emitted]))
    else
      var k :- ValidateString(st.buffer, st.previous, st.line);
      Ok(st.(buffer := [], previous := kind, group := st.group + [Token(k, st.buffer, st.line), emitted]))
  }

  /** After a line feed: advance the line, keep the group unless it is the line feed alone. */
  function CloseLine(st: LexState): LexState {
    st.(line := st.line + 1,
        groups := if |st.group| > 1 then st.groups + [st.group] else st.groups,
        group := [])
  }

  /** The token kind and fixed value that a punctuation character or line feed emits. */
  function PunctuationOf(c: char): (TokenType, string)
    requires IsPunctuation(c) || c == '\n'
  {
    if c == '%' then (TK_PERCENT, PercentValue)
    else if c == '$' then (TK_DOLLAR, DollarValue)
    else if c == '=' then (TK_EQUAL, EqualValue)
    else if c == ':' then (TK_COLON, ColonValue)
    else if c == ',' then (TK_COMMA, CommaValue)
    else (TK_NEWLINE, NewlineValue)
  }

  /** One turn of the main loop of `tokenize`. */
  function Step(st: LexState, c: char): Result<LexState> {
    if IsBlank(c) then Ok(st)
    else if c == '%' then Append(st, TK_PERCENT, PercentValue)
    else if c == '$' then Append(st, TK_DOLLAR, DollarValue)
    else if c == '=' then Append(st, TK_EQUAL, EqualValue)
    else if c == ':' then Append(st, TK_COLON, ColonValue)
    else if c == ',' then Append(st, TK_COMMA, CommaValue)
    else if c == '\n' then
      var st' :- Append(st, TK_NEWLINE, NewlineValue);
      Ok(CloseLine(st'))
    else if IsWordChar(c) then Ok(st.(buffer := st.buffer + [c]))
    else Err(Error(ER_UNRECOGNIZED_CHAR, st.line))
  }

  /** The main loop over a whole text, stopping at the first error. */
  function Run(st: LexState, s: string): Result<LexState>
    decreases |s|
  {
    if |s| == 0 then Ok(st)
    else
      var st' :- Step(st, s[0]);
      Run(st', s[1..])
  }

  /**
   * The adjacency table of validateTokens: which kind may follow `previous`.
   * Its initial expectation {SYMBOL, NEWLINE} is the row of TK_NEWLINE.
   */
  predicate Follows(previous: TokenType, next: TokenType) {
    match previous
    case TK_SYMBOL => next in {TK_EQUAL, TK_COLON, TK_COMMA, TK_NEWLINE}
    case TK_LITERAL => next in {TK_COMMA, TK_NEWLINE}
    case TK_ADDRESS => next in {TK_COMMA, TK_NEWLINE}
    case TK_EQUAL => next in {TK_DOLLAR, TK_PERCENT}
    case TK_PERCENT => next == TK_LITERAL
    case TK_DOLLAR => next == TK_ADDRESS
    case TK_COLON => next == TK_NEWLINE
    case TK_COMMA => next in {TK_PERCENT, TK_DOLLAR, TK_SYMBOL}
    case TK_NEWLINE => next in {TK_SYMBOL, TK_NEWLINE}
  }

  /** Check one group; on success give the kind of its last token (or `previous` when empty). */
  function ValidateGroup(previous: TokenType, g: seq<Token>): Result<TokenType>
    decreases |g|
  {
    if |g| == 0 then Ok(previous)
    else if !Follows(previous, g[0].kind) then Err(Error(ER_UNEXPECTED_TOKEN, g[0].line))
    else ValidateGroup(g[0].kind, g[1..])
  }

  function ValidateGroups(previous: TokenType, gs: seq<seq<Token>>): Result<TokenType>
    decreases |gs|
  {
    if |gs| == 0 then Ok(previous)
    else
      var p :- ValidateGroup(previous, gs[0]);
      ValidateGroups(p, gs[1..])
  }

  /** The whole of `tokenize`: lex the text, then validate the groups. */
  function Lex(raw: string): Result<seq<seq<Token>>> {
    var st :- Run(Start, raw);
    var _ :- ValidateGroups(TK_NEWLINE, st.groups);
    Ok(st.groups)
  }

  method AppendToken(tokenGroup: seq<Token>, kind: TokenType, currentString: string,
                     previousTokenType: TokenType, currentLine: int, value: string)
    returns (r: Result<seq<Token>>)
    ensures var st := LexState(currentString, previousTokenType, currentLine, tokenGroup, []);
            match Append(st, kind, value)
            case Err(e) => r == Err(e)
            case Ok(st') => r == Ok(st'.group)
  {
    var group := tokenGroup;
    if currentString != [] {
      var stringType := ValidateString(currentString, previousTokenType, currentLine);
      if stringType.Err? {
        return Err(stringType.error);
      }
      group := group + [Token(stringType.value, currentString, currentLine)];
      assert group + [Token(kind, value, currentLine)]
          == tokenGroup + [Token(stringType.value, currentString, currentLine), Token(kind, value, currentLine)];
    }
    group := group + [Token(kind, value, currentLine)];
    return Ok(group);
  }

  method ValidateTokens(tokens: seq<seq<Token>>) returns (r: Result<TokenType>)
    ensures r == ValidateGroups(TK_NEWLINE, tokens)
  {
    var previous := TK_NEWLINE;
    var g := 0;
    while g < |tokens|
      invariant 0 <= g <= |tokens|
      invariant ValidateGroups(TK_NEWLINE, tokens) == ValidateGroups(previous, tokens[g..])
    {
      var tokenGroup := tokens[g];
      var k := 0;
      while k < |tokenGroup|
        invariant 0 <= k <= |tokenGroup|
        invariant ValidateGroups(TK_NEWLINE, tokens) ==
          match ValidateGroup(previous, tokenGroup[k..])
          case Err(e) => Err(e)
          case Ok(p) => ValidateGroups(p, tokens[g + 1..])
      {
        var token := tokenGroup[k];
        if !Follows(previous, token.kind) {
          return Err(Error(ER_UNEXPECTED_TOKEN, token.line));
        }
        previous := token.kind;
        k := k + 1;
      }
      g := g + 1;
    }
    return Ok(previous);
  }

  method Tokenize(rawData: string) returns (r: Result<seq<seq<Token>>>)
    ensures r == Lex(rawData)
  {
    var currentLine := 1;
    var currentString: string := "";
    var previousTokenType := TK_SYMBOL;
    var tokenGroup: seq<Token> := [];
    var tokens: seq<seq<Token>> := [];
    var i := 0;
    while i < |rawData|
      invariant 0 <= i <= |rawData|
      invariant Run(Start, rawData) ==
                Run(LexState(currentString, previousTokenType, currentLine, tokenGroup, tokens), rawData[i..])
    {
      var c := rawData[i];
      if IsBlank(c) {
      } else if IsPunctuation(c) || c == '\n' {
        var (kind, value) := PunctuationOf(c);
        var appended := AppendToken(tokenGroup, kind, currentString, previousTokenType, currentLine, value);
        if appended.Err? {
          return Err(appended.error);
        }
        tokenGroup := appended.value;
        currentString := "";
        previousTokenType := kind;
        if c == '\n' {
          currentLine := currentLine + 1;
          if |tokenGroup| > 1 {
            tokens := tokens + [tokenGroup];
          }
          tokenGroup := [];
        }
      } else if IsWordChar(c) {
        currentString := currentString + [c];
      } else {
        return Err(Error(ER_UNRECOGNIZED_CHAR, currentLine));
      }
      i := i + 1;
    }
    var validated := ValidateTokens(tokens);
    if validated.Err? {
      return Err(validated.error);
    }
    return Ok(tokens);
  }
}
