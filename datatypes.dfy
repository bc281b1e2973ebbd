/**
 * The records of the intermediate form and their line-based text format.
 *
 * A record is written as its kind digit followed, for a group of more than
 * one token that does not start with a line feed, by the tokens and then
 * `/`, the line number and a line feed. A symbol is written `!name|`, an
 * address or literal `digits|`, punctuation as its own character, and the
 * line-feed token not at all. A label is written `name|`, a kind digit
 * (none for OT_NONE), its value and a line feed.
 *
 * Streams are strings read from a cursor. Extracting a character with `>>`
 * skips white space first; `get` does not. Where the reader would call
 * `stoi` on text that is not a decimal number, or reads past the end of
 * the stream where the C++ would leave a character undefined, the model
 * fails with None.
 */
module Datatypes {
  import opened Utils
  import opened Kinds
  import opened Decimal
  import Tokenizer

  datatype Token = Token(kind: TokenType, value: string)

  datatype TokenGroup = TokenGroup(tokens: seq<Token>, line: int)

  datatype OperandType = OT_ADDRESS | OT_LITERAL | OT_NONE

  datatype Label = Label(token: Token, labelType: OperandType, labelValue: int)

  datatype Operation = Operation(mnemonic: string, opcode: bv8, wordSize: nat, operandType: OperandType)

  datatype RecordType =
    | RT_DEF_ADDRESS
    | RT_DEF_LITERAL
    | RT_DEF_LABEL
    | RT_INS_ADDRESS
    | RT_INS_LITERAL
    | RT_INS_LABEL
    | RT_INS_NONE

  datatype Record = Record(kind: RecordType, tokenGroup: TokenGroup)

  // ---------------------------------------------------------------------
  // Equality

  /** Tokens are equal when both kind and value are. */
  function TokenEquals(a: Token, b: Token): (r: bool)
    ensures r <==> a == b
  {
    a.value == b.value && a.kind == b.kind
  }

  function TokenDiffers(a: Token, b: Token): (r: bool)
    ensures r <==> a != b
  {
    !TokenEquals(a, b)
  }

  /** Groups are equal when their tokens are, element by element; the line is not compared. */
  method GroupEquals(a: TokenGroup, b: TokenGroup) returns (eq: bool)
    ensures eq <==> a.tokens == b.tokens
  {
    if |a.tokens| != |b.tokens| {
      return false;
    }
    var i := 0;
    while i < |a.tokens|
      invariant 0 <= i <= |a.tokens|
      invariant a.tokens[..i] == b.tokens[..i]
    {
      if TokenDiffers(a.tokens[i], b.tokens[i]) {
        return false;
      }
      assert a.tokens[..i + 1] == a.tokens[..i] + [a.tokens[i]];
      assert b.tokens[..i + 1] == b.tokens[..i] + [b.tokens[i]];
      i := i + 1;
    }
    assert a.tokens == a.tokens[..i] && b.tokens == b.tokens[..i];
    return true;
  }

  method GroupDiffers(a: TokenGroup, b: TokenGroup) returns (ne: bool)
    ensures ne <==> a.tokens != b.tokens
  {
    var eq := GroupEquals(a, b);
    return !eq;
  }

  /** What `TokenGroup::clear` leaves: no tokens and line 0, whatever the group held. */
  function Cleared(tg: TokenGroup): (r: TokenGroup)
    ensures r.tokens == [] && r.line == 0
  {
    tg.(tokens := [], line := 0)
  }

  // ---------------------------------------------------------------------
  // Writing

  /** The digit `Record <<` writes for a kind; the reader maps it back to that kind. */
  function RecordDigit(k: RecordType): (c: char)
    ensures RecordTypeOf(c) == k
    ensures '0' <= c <= '6'
  {
    match k
    case RT_DEF_ADDRESS => '0'
    case RT_DEF_LITERAL => '1'
    case RT_DEF_LABEL => '2'
    case RT_INS_ADDRESS => '3'
    case RT_INS_LITERAL => '4'
    case RT_INS_LABEL => '5'
    case RT_INS_NONE => '6'
  }

  /** The reader's mapping; any other character leaves the initial RT_DEF_ADDRESS. */
  function RecordTypeOf(c: char): RecordType {
    if c == '1' then RT_DEF_LITERAL
    else if c == '2' then RT_DEF_LABEL
    else if c == '3' then RT_INS_ADDRESS
    else if c == '4' then RT_INS_LITERAL
    else if c == '5' then RT_INS_LABEL
    else if c == '6' then RT_INS_NONE
    else RT_DEF_ADDRESS
  }

  function TokenText(t: Token): string {
    match t.kind
    case TK_SYMBOL => "!" + t.value + "|"
    case TK_ADDRESS => t.value + "|"
    case TK_LITERAL => t.value + "|"
    case TK_PERCENT => "%"
    case TK_DOLLAR => "$"
    case TK_EQUAL => "="
    case TK_COLON => ":"
    case TK_COMMA => ","
    case TK_NEWLINE => ""
  }

  function GroupText(ts: seq<Token>): string {
    if |ts| == 0 then "" else GroupText(ts[..|ts| - 1]) + TokenText(ts[|ts| - 1])
  }

  /** The body is written only for a group of more than one token that does not start with a line feed. */
  predicate HasBody(tg: TokenGroup) {
    |tg.tokens| > 1 && tg.tokens[0].kind != TK_NEWLINE
  }

  function RecordText(rd: Record): (r: string)
    ensures |r| >= 1 && r[0] == RecordDigit(rd.kind)
    ensures |r| == 1 <==> !HasBody(rd.tokenGroup)
  {
    [RecordDigit(rd.kind)]
      + if HasBody(rd.tokenGroup)
        then GroupText(rd.tokenGroup.tokens) + "/" + IntToString(rd.tokenGroup.line) + "\n"
        else ""
  }

  /** Push the characters of `value` one by one. */
  method PushChars(output: string, value: string) returns (out: string)
    ensures out == output + value
  {
    out := output;
    for k := 0 to |value|
      invariant out == output + value[..k]
    {
      out := out + [value[k]];
      assert value[..k + 1] == value[..k] + [value[k]];
    }
    assert value[..|value|] == value;
  }

  /** The token loop of `Record <<`. */
  method WriteTokens(tokens: seq<Token>) returns (output: string)
    ensures output == GroupText(tokens)
  {
    output := "";
    for i := 0 to |tokens|
      invariant output == GroupText(tokens[..i])
    {
      var token := tokens[i];
      assert tokens[..i + 1][..i] == tokens[..i];
      match token.kind {
        case TK_SYMBOL =>
          output := output + ['!'];
          output := PushChars(output, token.value);
          output := output + ['|'];
        case TK_ADDRESS =>
          output := PushChars(output, token.value);
          output := output + ['|'];
        case TK_LITERAL =>
          output := PushChars(output, token.value);
          output := output + ['|'];
        case TK_PERCENT => output := output + ['%'];
        case TK_DOLLAR => output := output + ['$'];
        case TK_EQUAL => output := output + ['='];
        case TK_COLON => output := output + [':'];
        case TK_COMMA => output := output + [','];
        case TK_NEWLINE =>
      }
    }
    assert tokens[..|tokens|] == tokens;
  }

  method WriteRecord(rd: Record) returns (out: string)
    ensures out == RecordText(rd)
  {
    out := [RecordDigit(rd.kind)];
    var tokens := rd.tokenGroup.tokens;
    if |tokens| > 1 {
      if tokens[0].kind != TK_NEWLINE {
        var output := WriteTokens(tokens);
        output := output + ['/'];
        output := output + IntToString(rd.tokenGroup.line);
        output := output + ['\n'];
        out := out + output;
      }
    }
  }

  function TypeDigitText(t: OperandType): string {
    match t
    case OT_ADDRESS => "0"
    case OT_LITERAL => "1"
    case OT_NONE => ""
  }

  function LabelText(lb: Label): string {
    lb.token.value + "|" + TypeDigitText(lb.labelType) + IntToString(lb.labelValue) + "\n"
  }

  // ---------------------------------------------------------------------
  // Reading

  /** The characters `>>` skips. */
  predicate IsSpace(c: char) {
    c == ' ' || c == '\t' || c == '\n' || c == '\r' || c == '\U{0B}' || c == '\U{0C}'
  }

  /** Where `>>` finds its character: the first position from `pos` on that is not white space. */
  function SkipSpace(s: string, pos: nat): (p: nat)
    requires pos <= |s|
    ensures pos <= p <= |s|
    ensures p < |s| ==> !IsSpace(s[p])
    ensures forall i :: pos <= i < p ==> IsSpace(s[i])
    decreases |s| - pos
  {
    if pos == |s| || !IsSpace(s[pos]) then pos else SkipSpace(s, pos + 1)
  }

  /** The characters `get` reads up to a line feed (consumed) or the end, and where it stops. */
  function LineText(s: string, pos: nat): (r: (string, nat))
    requires pos <= |s|
    ensures pos <= r.1 <= |s|
    decreases |s| - pos
  {
    if pos == |s| then ("", pos)
    else if s[pos] == '\n' then ("", pos + 1)
    else var rest := LineText(s, pos + 1); ([s[pos]] + rest.0, rest.1)
  }

  /** After `/`: the rest of the line is the line number, and the group ends with the line feed token. */
  function ReadLineNumber(s: string, pos: nat, tokens: seq<Token>): Option<(TokenGroup, nat)>
    requires pos <= |s|
  {
    var (text, next) := LineText(s, pos);
    match ParseInt(text)
    case None => None
    case Some(n) => Some((TokenGroup(tokens + [Token(TK_NEWLINE, Tokenizer.NewlineValue)], n), next))
  }

  /** The loop of `TokenGroup >>` from a cursor, with its variables `tokens`, `type` and `symbol`. */
  function ReadGroupFrom(s: string, pos: nat, tokens: seq<Token>, kind: TokenType, symbol: string)
    : Option<(TokenGroup, nat)>
    requires pos <= |s|
    decreases |s| - pos, 1
  {
    var p := SkipSpace(s, pos);
    if p == |s| then Some((TokenGroup(tokens, 0), p))
    else ReadGroupChar(s, p, tokens, kind, symbol)
  }

  /** One turn of that loop, on the character `>>` found at `p`. */
  function ReadGroupChar(s: string, p: nat, tokens: seq<Token>, kind: TokenType, symbol: string)
    : Option<(TokenGroup, nat)>
    requires p < |s|
    decreases |s| - p, 0
  {
    var c := s[p];
    if c == '%' then ReadGroupFrom(s, p + 1, tokens + [Token(TK_PERCENT, Tokenizer.PercentValue)], TK_LITERAL, symbol)
    else if c == '$' then ReadGroupFrom(s, p + 1, tokens + [Token(TK_DOLLAR, Tokenizer.DollarValue)], TK_ADDRESS, symbol)
    else if c == '=' then ReadGroupFrom(s, p + 1, tokens + [Token(TK_EQUAL, Tokenizer.EqualValue)], kind, symbol)
    else if c == ':' then ReadGroupFrom(s, p + 1, tokens + [Token(TK_COLON, Tokenizer.ColonValue)], kind, symbol)
    else if c == ',' then ReadGroupFrom(s, p + 1, tokens + [Token(TK_COMMA, Tokenizer.CommaValue)], kind, symbol)
    else if c == '|' then ReadGroupFrom(s, p + 1, tokens + [Token(kind, symbol)], kind, "")
    else if c == '!' then ReadGroupFrom(s, p + 1, tokens, TK_SYMBOL, symbol)
    else if c == '/' then ReadLineNumber(s, p + 1, tokens)
    else ReadGroupFrom(s, p + 1, tokens, kind, symbol + [c])
  }

  function ReadGroup(s: string, pos: nat): Option<(TokenGroup, nat)>
    requires pos <= |s|
  {
    ReadGroupFrom(s, pos, [], TK_SYMBOL, "")
  }

  function ReadRecord(s: string, pos: nat): Option<(Record, nat)>
    requires pos <= |s|
  {
    var p := SkipSpace(s, pos);
    if p == |s| then None
    else match ReadGroup(s, p + 1)
      case None => None
      case Some((tg, next)) => Some((Record(RecordTypeOf(s[p]), tg), next))
  }

  /** The name loop of `Label >>`: characters up to `|`, white space skipped. */
  function ReadName(s: string, pos: nat, name: string): (r: Option<(string, nat)>)
    requires pos <= |s|
    ensures r.Some? ==> r.value.1 <= |s|
    decreases |s| - pos
  {
    var p := SkipSpace(s, pos);
    if p == |s| then None
    else if s[p] == '|' then Some((name, p + 1))
    else ReadName(s, p + 1, name + [s[p]])
  }

  /** A label read back is always a symbol, and never of type OT_NONE. */
  function ReadLabel(s: string, pos: nat): (r: Option<(Label, nat)>)
    requires pos <= |s|
    ensures r.Some? ==> r.value.0.token.kind == TK_SYMBOL && r.value.0.labelType != OT_NONE
  {
    match ReadName(s, pos, "")
    case None => None
    case Some((name, q)) =>
      var p := SkipSpace(s, q);
      if p == |s| then None
      else
        var labelType := if s[p] == '0' then OT_ADDRESS else OT_LITERAL;
        var (text, next) := LineText(s, p + 1);
        match ParseInt(text)
        case None => None
        case Some(n) => Some((Label(Token(TK_SYMBOL, name), labelType, n), next))
  }

  /** `get` until a line feed, as a loop. */
  method GetLine(s: string, pos: nat) returns (text: string, next: nat)
    requires pos <= |s|
    ensures (text, next) == LineText(s, pos)
  {
    text := "";
    next := pos;
    assert text + LineText(s, next).0 == LineText(s, next).0;
    while next < |s| && s[next] != '\n'
      invariant pos <= next <= |s|
      invariant LineText(s, pos) == (text + LineText(s, next).0, LineText(s, next).1)
    {
      assert LineText(s, next).0 == [s[next]] + LineText(s, next + 1).0;
      assert text + LineText(s, next).0 == (text + [s[next]]) + LineText(s, next + 1).0;
      text := text + [s[next]];
      next := next + 1;
    }
    assert text + LineText(s, next).0 == text;
    if next < |s| {
      next := next + 1;
    }
  }

  method ReadTokenGroup(s: string, pos: nat) returns (r: Option<(TokenGroup, nat)>)
    requires pos <= |s|
    ensures r == ReadGroup(s, pos)
  {
    var tokens: seq<Token> := [];
    var line := 0;
    var kind := TK_SYMBOL;
    var symbol: string := "";
    var eol := false;
    var i := pos;
    while !eol && SkipSpace(s, i) < |s|
      invariant pos <= i <= |s|
      invariant !eol ==> ReadGroup(s, pos) == ReadGroupFrom(s, i, tokens, kind, symbol)
      invariant eol ==> ReadGroup(s, pos) == Some((TokenGroup(tokens, line), i))
      invariant !eol ==> line == 0
      decreases |s| - i, if eol then 0 else 1
    {
      i := SkipSpace(s, i);
      var c := s[i];
      i := i + 1;
      match c {
        case '%' =>
          kind := TK_LITERAL;
          tokens := tokens + [Token(TK_PERCENT, Tokenizer.PercentValue)];
        case '$' =>
          kind := TK_ADDRESS;
          tokens := tokens + [Token(TK_DOLLAR, Tokenizer.DollarValue)];
        case '=' => tokens := tokens + [Token(TK_EQUAL, Tokenizer.EqualValue)];
        case ':' => tokens := tokens + [Token(TK_COLON, Tokenizer.ColonValue)];
        case ',' => tokens := tokens + [Token(TK_COMMA, Tokenizer.CommaValue)];
        case '|' =>
          tokens := tokens + [Token(kind, symbol)];
          symbol := "";
        case '!' => kind := TK_SYMBOL;
        case '/' =>
          eol := true;
          var value, next := GetLine(s, i);
          var parsed := ParseInt(value);
          if parsed.None? {
            return None;
          }
          line := parsed.value;
          i := next;
          tokens := tokens + [Token(TK_NEWLINE, Tokenizer.NewlineValue)];
        case _ => symbol := symbol + [c];
      }
    }
    if !eol {
      i := SkipSpace(s, i);
    }
    return Some((TokenGroup(tokens, line), i));
  }

  method ReadRecordAt(s: string, pos: nat) returns (r: Option<(Record, nat)>)
    requires pos <= |s|
    ensures r == ReadRecord(s, pos)
  {
    var p := SkipSpace(s, pos);
    if p == |s| {
      return None;
    }
    var kind := RecordTypeOf(s[p]);
    var tg := ReadTokenGroup(s, p + 1);
    if tg.None? {
      return None;
    }
    return Some((Record(kind, tg.value.0), tg.value.1));
  }

  method ReadLabelAt(s: string, pos: nat) returns (r: Option<(Label, nat)>)
    requires pos <= |s|
    ensures r == ReadLabel(s, pos)
  {
    var tokenValue: string := "";
    var i := SkipSpace(s, pos);
    while i < |s| && s[i] != '|'
      invariant pos <= i <= |s|
      invariant i == |s| || !IsSpace(s[i])
      invariant ReadName(s, pos, "") == ReadName(s, i, tokenValue)
      decreases |s| - i
    {
      tokenValue := tokenValue + [s[i]];
      i := SkipSpace(s, i + 1);
    }
    if i == |s| {
      return None;
    }
    var p := SkipSpace(s, i + 1);
    if p == |s| {
      return None;
    }
    var labelType := if s[p] == '0' then OT_ADDRESS else OT_LITERAL;
    var value, next := GetLine(s, p + 1);
    var labelValue := ParseInt(value);
    if labelValue.None? {
      return None;
    }
    return Some((Label(Token(TK_SYMBOL, tokenValue), labelType, labelValue.value), next));
  }
}
