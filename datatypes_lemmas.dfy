/**
 * The record and label text formats read back what was written: for a
 * token group in the shape the lexer produces (a body of tokens whose
 * values hold no mark and no white space, then one line feed), reading a
 * record at the place where it was written yields that record and stops
 * right after it, whatever text follows.
 */
module DatatypesProperties {
  import opened Utils
  import opened Kinds
  import opened Decimal
  import Tokenizer
  import opened Datatypes

  /** `x` occurs in `s` from position `pos`, stated character by character. */
  predicate At(s: string, pos: nat, x: string)
    decreases |x|
  {
    pos + |x| <= |s| && (|x| == 0 || (s[pos] == x[0] && At(s, pos + 1, x[1..])))
  }

  lemma {:induction false} AtSlice(s: string, pos: nat, x: string)
    requires pos + |x| <= |s| && s[pos..pos + |x|] == x
    ensures At(s, pos, x)
    decreases |x|
  {
    if x != [] {
      assert s[pos] == s[pos..pos + |x|][0];
      assert s[pos + 1..pos + |x|] == s[pos..pos + |x|][1..];
      AtSlice(s, pos + 1, x[1..]);
    }
  }

  lemma {:induction false} AtConcat(s: string, pos: nat, x: string, y: string)
    requires At(s, pos, x + y)
    ensures At(s, pos, x) && At(s, pos + |x|, y)
    decreases |x|
  {
    if x == [] {
      assert x + y == y;
    } else {
      assert (x + y)[0] == x[0] && (x + y)[1..] == x[1..] + y;
      AtConcat(s, pos + 1, x[1..], y);
    }
  }

  lemma Assoc<T>(a: seq<T>, b: seq<T>, c: seq<T>)
    ensures (a + b) + c == a + (b + c)
  {
  }

  lemma AtChar(s: string, pos: nat, c: char)
    requires At(s, pos, [c])
    ensures s[pos] == c
  {
  }

  /** The marks the group reader treats specially. */
  predicate IsMark(c: char) {
    c == '%' || c == '$' || c == '=' || c == ':' || c == ',' || c == '|' || c == '!' || c == '/'
  }

  /** A value the group reader collects character by character into `symbol`. */
  predicate ValueOk(v: string) {
    forall i :: 0 <= i < |v| ==> !IsSpace(v[i]) && !IsMark(v[i])
  }

  /** A label name: the name reader stops only at `|` and drops white space. */
  predicate NameOk(v: string) {
    forall i :: 0 <= i < |v| ==> !IsSpace(v[i]) && v[i] != '|'
  }

  const Newline: Token := Token(TK_NEWLINE, Tokenizer.NewlineValue)

  /** How the reader's `type` variable changes as a token is read back. */
  function NextKind(k: TokenType, t: Token): TokenType {
    match t.kind
    case TK_PERCENT => TK_LITERAL
    case TK_DOLLAR => TK_ADDRESS
    case TK_SYMBOL => TK_SYMBOL
    case _ => k
  }

  /**
   * A body token is read back as written when `k` is the reader's `type`
   * before it: punctuation carries its fixed value, a value holds no mark and
   * no white space, and an address (literal) comes after a `$` (`%`).
   */
  predicate Readable(t: Token, k: TokenType) {
    match t.kind
    case TK_SYMBOL => ValueOk(t.value)
    case TK_ADDRESS => ValueOk(t.value) && k == TK_ADDRESS
    case TK_LITERAL => ValueOk(t.value) && k == TK_LITERAL
    case TK_PERCENT => t.value == Tokenizer.PercentValue
    case TK_DOLLAR => t.value == Tokenizer.DollarValue
    case TK_EQUAL => t.value == Tokenizer.EqualValue
    case TK_COLON => t.value == Tokenizer.ColonValue
    case TK_COMMA => t.value == Tokenizer.CommaValue
    case TK_NEWLINE => false
  }

  /** Every token of `ts` is Readable, starting with the reader's `type` at `k`. */
  predicate ReadableFrom(ts: seq<Token>, k: TokenType)
    decreases |ts|
  {
    |ts| == 0 || (Readable(ts[0], k) && ReadableFrom(ts[1..], NextKind(k, ts[0])))
  }

  /** A group as the lexer forms it: a non-empty readable body closed by one line feed. */
  predicate WellFormed(tg: TokenGroup) {
    && |tg.tokens| > 1
    && tg.tokens[|tg.tokens| - 1] == Newline
    && ReadableFrom(tg.tokens[..|tg.tokens| - 1], TK_SYMBOL)
  }

  lemma GroupTextSnoc(ts: seq<Token>, t: Token)
    ensures GroupText(ts + [t]) == GroupText(ts) + TokenText(t)
  {
    assert (ts + [t])[..|ts|] == ts;
  }

  lemma SnocSplit<T>(a: seq<T>, b: seq<T>)
    requires b != []
    ensures b == b[..|b| - 1] + [b[|b| - 1]]
    ensures a + b == (a + b[..|b| - 1]) + [b[|b| - 1]]
  {
  }

  lemma {:induction false} GroupTextConcat(a: seq<Token>, b: seq<Token>)
    ensures GroupText(a + b) == GroupText(a) + GroupText(b)
    decreases |b|
  {
    if b == [] {
      assert a + b == a;
    } else {
      var b', last := b[..|b| - 1], b[|b| - 1];
      SnocSplit(a, b);
      GroupTextSnoc(a + b', last);
      GroupTextSnoc(b', last);
      GroupTextConcat(a, b');
      Assoc(GroupText(a), GroupText(b'), TokenText(last));
    }
  }

  lemma ConsSplit<T>(ts: seq<T>)
    requires ts != []
    ensures ts == [ts[0]] + ts[1..]
  {
  }

  lemma GroupTextSingle(t: Token)
    ensures GroupText([t]) == TokenText(t)
  {
    assert [t][..0] == [];
  }

  lemma GroupTextCons(ts: seq<Token>)
    requires ts != []
    ensures GroupText(ts) == TokenText(ts[0]) + GroupText(ts[1..])
  {
    ConsSplit(ts);
    GroupTextConcat([ts[0]], ts[1..]);
    GroupTextSingle(ts[0]);
  }

  lemma DecimalHasNoNewline(t: string)
    requires IsDecimal(t)
    ensures '\n' !in t
  {
  }

  /** The decimal text of `n` holds no line feed and reads back as `n`. */
  lemma ValueText(n: int)
    ensures '\n' !in IntToString(n) && ParseInt(IntToString(n)) == Some(n)
  {
    IntRoundTrip(n);
    DecimalHasNoNewline(IntToString(n));
  }

  /** `get` up to a line feed reads exactly the text before it. */
  lemma {:induction false} LineTextAt(s: string, pos: nat, t: string)
    requires At(s, pos, t + "\n") && '\n' !in t
    ensures LineText(s, pos) == (t, pos + |t| + 1)
    decreases |t|
  {
    if t == [] {
      AtChar(s, pos, '\n');
    } else {
      assert t + "\n" == [t[0]] + (t[1..] + "\n");
      AtConcat(s, pos, [t[0]], t[1..] + "\n");
      AtChar(s, pos, t[0]);
      LineTextAt(s, pos + 1, t[1..]);
      assert t[0] in t;
      assert LineText(s, pos) == ([t[0]] + LineText(s, pos + 1).0, LineText(s, pos + 1).1);
      assert [t[0]] + t[1..] == t;
    }
  }

  // One turn of the group reader's loop per kind of character.

  lemma ReadValueChar(s: string, p: nat, tokens: seq<Token>, kind: TokenType, symbol: string)
    requires p < |s| && !IsSpace(s[p]) && !IsMark(s[p])
    ensures ReadGroupFrom(s, p, tokens, kind, symbol) == ReadGroupFrom(s, p + 1, tokens, kind, symbol + [s[p]])
  {
  }

  lemma ReadBar(s: string, p: nat, tokens: seq<Token>, kind: TokenType, symbol: string)
    requires p < |s| && s[p] == '|'
    ensures ReadGroupFrom(s, p, tokens, kind, symbol) == ReadGroupFrom(s, p + 1, tokens + [Token(kind, symbol)], kind, "")
  {
  }

  lemma ReadBang(s: string, p: nat, tokens: seq<Token>, kind: TokenType, symbol: string)
    requires p < |s| && s[p] == '!'
    ensures ReadGroupFrom(s, p, tokens, kind, symbol) == ReadGroupFrom(s, p + 1, tokens, TK_SYMBOL, symbol)
  {
  }

  lemma ValueOkTail(v: string)
    requires v != [] && ValueOk(v)
    ensures !IsSpace(v[0]) && !IsMark(v[0]) && ValueOk(v[1..])
  {
    forall i | 0 <= i < |v[1..]| ensures !IsSpace(v[1..][i]) && !IsMark(v[1..][i]) {
      assert v[1..][i] == v[i + 1];
    }
  }

  /** The characters of a value are gathered into `symbol`. */
  lemma {:induction false} ReadValue(s: string, pos: nat, tokens: seq<Token>, kind: TokenType, symbol: string, v: string)
    requires At(s, pos, v) && ValueOk(v)
    ensures ReadGroupFrom(s, pos, tokens, kind, symbol)
         == ReadGroupFrom(s, pos + |v|, tokens, kind, symbol + v)
    decreases |v|
  {
    if v != [] {
      ValueOkTail(v);
      ReadValueChar(s, pos, tokens, kind, symbol);
      ReadValue(s, pos + 1, tokens, kind, symbol + [v[0]], v[1..]);
      assert symbol + [v[0]] + v[1..] == symbol + v;
    } else {
      assert symbol + v == symbol;
    }
  }

  /** A value followed by `|` is read back as a token of the kind the reader holds. */
  lemma ReadNumber(s: string, p: nat, tokens: seq<Token>, kind: TokenType, v: string)
    requires ValueOk(v) && At(s, p, v) && p + |v| < |s| && s[p + |v|] == '|'
    ensures ReadGroupFrom(s, p, tokens, kind, "") == ReadGroupFrom(s, p + |v| + 1, tokens + [Token(kind, v)], kind, "")
  {
    ReadValue(s, p, tokens, kind, "", v);
    assert "" + v == v;
    ReadBar(s, p + |v|, tokens, kind, v);
  }

  /** A symbol, written `!value|`, is read back as a symbol whatever the reader's `type` was. */
  lemma ReadSymbol(s: string, p: nat, tokens: seq<Token>, kind: TokenType, v: string)
    requires ValueOk(v) && p < |s| && s[p] == '!'
    requires At(s, p + 1, v) && p + 1 + |v| < |s| && s[p + 1 + |v|] == '|'
    ensures ReadGroupFrom(s, p, tokens, kind, "")
         == ReadGroupFrom(s, p + |v| + 2, tokens + [Token(TK_SYMBOL, v)], TK_SYMBOL, "")
  {
    ReadBang(s, p, tokens, kind, "");
    ReadNumber(s, p + 1, tokens, TK_SYMBOL, v);
  }

  /** A punctuation token, written as its one character, is read back with its fixed value. */
  lemma ReadPunctuation(s: string, p: nat, tokens: seq<Token>, kind: TokenType, t: Token)
    requires t.kind in {TK_PERCENT, TK_DOLLAR, TK_EQUAL, TK_COLON, TK_COMMA}
    requires Readable(t, kind) && p < |s| && [s[p]] == TokenText(t)
    ensures ReadGroupFrom(s, p, tokens, kind, "") == ReadGroupFrom(s, p + 1, tokens + [t], NextKind(kind, t), "")
  {
    assert s[p] == TokenText(t)[0];
  }

  /** Where the text of token `t` occurs from `pos`, character by character as the reader needs it. */
  predicate TokenAt(s: string, pos: nat, t: Token) {
    match t.kind
    case TK_SYMBOL =>
      pos < |s| && s[pos] == '!' && At(s, pos + 1, t.value) && pos + 1 + |t.value| < |s| && s[pos + 1 + |t.value|] == '|'
    case TK_ADDRESS => At(s, pos, t.value) && pos + |t.value| < |s| && s[pos + |t.value|] == '|'
    case TK_LITERAL => At(s, pos, t.value) && pos + |t.value| < |s| && s[pos + |t.value|] == '|'
    case TK_NEWLINE => true
    case _ => pos < |s| && [s[pos]] == TokenText(t)
  }

  lemma TokenLayout(s: string, pos: nat, t: Token)
    requires At(s, pos, TokenText(t))
    ensures TokenAt(s, pos, t)
  {
    match t.kind
    case TK_SYMBOL =>
      assert TokenText(t) == "!" + (t.value + "|");
      AtConcat(s, pos, "!", t.value + "|");
      AtConcat(s, pos + 1, t.value, "|");
    case TK_ADDRESS =>
      AtConcat(s, pos, t.value, "|");
    case TK_LITERAL =>
      AtConcat(s, pos, t.value, "|");
    case TK_NEWLINE =>
    case _ =>
  }

  /** One written token is read back as itself, and the reader's `type` moves on as NextKind says. */
  lemma ReadToken(s: string, pos: nat, tokens: seq<Token>, kind: TokenType, t: Token)
    requires Readable(t, kind) && TokenAt(s, pos, t)
    ensures ReadGroupFrom(s, pos, tokens, kind, "")
         == ReadGroupFrom(s, pos + |TokenText(t)|, tokens + [t], NextKind(kind, t), "")
  {
    match t.kind
    case TK_SYMBOL =>
      ReadSymbol(s, pos, tokens, kind, t.value);
      assert |TokenText(t)| == |t.value| + 2 && t == Token(TK_SYMBOL, t.value);
    case TK_ADDRESS =>
      ReadNumber(s, pos, tokens, kind, t.value);
      assert |TokenText(t)| == |t.value| + 1 && t == Token(kind, t.value);
    case TK_LITERAL =>
      ReadNumber(s, pos, tokens, kind, t.value);
      assert |TokenText(t)| == |t.value| + 1 && t == Token(kind, t.value);
    case TK_NEWLINE =>
    case _ => ReadPunctuation(s, pos, tokens, kind, t);
  }

  /** What `Record <<` writes after the tokens: `/`, the line number and a line feed. */
  function LineEndText(digits: string): string {
    "/" + digits + "\n"
  }

  function LineEnd(line: int): string {
    LineEndText(IntToString(line))
  }

  /** Where the line end with `digits` occurs from `pos`, as the reader needs it. */
  predicate LineEndAt(s: string, pos: nat, digits: string) {
    pos < |s| && s[pos] == '/' && LineText(s, pos + 1) == (digits, pos + |digits| + 2)
  }

  lemma LineEndLayout(s: string, pos: nat, digits: string)
    requires At(s, pos, LineEndText(digits)) && '\n' !in digits
    ensures LineEndAt(s, pos, digits)
  {
    assert LineEndText(digits) == "/" + (digits + "\n");
    AtConcat(s, pos, "/", digits + "\n");
    AtChar(s, pos, '/');
    LineTextAt(s, pos + 1, digits);
  }

  /** The end of a record closes the group with the line feed token and the line number. */
  lemma ReadLineEnd(s: string, pos: nat, tokens: seq<Token>, kind: TokenType, digits: string, line: int)
    requires LineEndAt(s, pos, digits) && ParseInt(digits) == Some(line)
    ensures ReadGroupFrom(s, pos, tokens, kind, "").Some?
    ensures ReadGroupFrom(s, pos, tokens, kind, "").value.0 == TokenGroup(tokens + [Newline], line)
    ensures ReadGroupFrom(s, pos, tokens, kind, "").value.1 == pos + |digits| + 2
  {
  }

  /** The tokens `ts` are written from `pos` one after the other, then the line end with `digits`. */
  predicate Written(s: string, pos: nat, ts: seq<Token>, digits: string)
    decreases |ts|
  {
    if |ts| == 0 then LineEndAt(s, pos, digits)
    else TokenAt(s, pos, ts[0]) && Written(s, pos + |TokenText(ts[0])|, ts[1..], digits)
  }

  /** The length of the text of `ts`, token by token from the front. */
  function TextLength(ts: seq<Token>): nat
    decreases |ts|
  {
    if |ts| == 0 then 0 else |TokenText(ts[0])| + TextLength(ts[1..])
  }

  lemma AtSplit(s: string, pos: nat, a: string, b: string, c: string)
    requires At(s, pos, a + b + c)
    ensures At(s, pos, a) && At(s, pos + |a|, b + c)
  {
    Assoc(a, b, c);
    AtConcat(s, pos, a, b + c);
  }

  /** The first token of a written text is where the text starts... */
  lemma TextHead(s: string, pos: nat, ts: seq<Token>, tail: string)
    requires ts != [] && At(s, pos, GroupText(ts) + tail)
    ensures TokenAt(s, pos, ts[0])
  {
    GroupTextCons(ts);
    AtSplit(s, pos, TokenText(ts[0]), GroupText(ts[1..]), tail);
    TokenLayout(s, pos, ts[0]);
  }

  /** ... and the rest of the text follows it. */
  lemma TextRest(s: string, pos: nat, ts: seq<Token>, tail: string)
    requires ts != [] && At(s, pos, GroupText(ts) + tail)
    ensures At(s, pos + |TokenText(ts[0])|, GroupText(ts[1..]) + tail)
  {
    GroupTextCons(ts);
    AtSplit(s, pos, TokenText(ts[0]), GroupText(ts[1..]), tail);
  }

  /** TextLength counts the characters of GroupText. */
  lemma {:induction false} TextLengthOfText(ts: seq<Token>)
    ensures TextLength(ts) == |GroupText(ts)|
    decreases |ts|
  {
    if ts != [] {
      GroupTextCons(ts);
      TextLengthOfText(ts[1..]);
    }
  }

  lemma WrittenEnd(s: string, pos: nat, digits: string)
    requires At(s, pos, GroupText([]) + LineEndText(digits)) && '\n' !in digits
    ensures Written(s, pos, [], digits)
  {
    assert GroupText([]) + LineEndText(digits) == LineEndText(digits);
    LineEndLayout(s, pos, digits);
  }

  lemma WrittenCons(s: string, pos: nat, ts: seq<Token>, digits: string)
    requires ts != [] && TokenAt(s, pos, ts[0]) && Written(s, pos + |TokenText(ts[0])|, ts[1..], digits)
    ensures Written(s, pos, ts, digits)
  {
  }

  /** Where the text of `ts` and a line end occur, the tokens are written one after the other. */
  lemma {:induction false} WrittenOfText(s: string, pos: nat, ts: seq<Token>, digits: string)
    requires At(s, pos, GroupText(ts) + LineEndText(digits)) && '\n' !in digits
    ensures Written(s, pos, ts, digits)
    decreases |ts|
  {
    if ts == [] {
      WrittenEnd(s, pos, digits);
    } else {
      TextHead(s, pos, ts, LineEndText(digits));
      TextRest(s, pos, ts, LineEndText(digits));
      WrittenOfText(s, pos + |TokenText(ts[0])|, ts[1..], digits);
      WrittenCons(s, pos, ts, digits);
    }
  }

  /** What is known of the first of the written tokens `ts` holds of the rest after it. */
  lemma WrittenTail(s: string, pos: nat, kind: TokenType, ts: seq<Token>, digits: string)
    requires ts != [] && ReadableFrom(ts, kind) && Written(s, pos, ts, digits)
    ensures Readable(ts[0], kind) && TokenAt(s, pos, ts[0])
    ensures ReadableFrom(ts[1..], NextKind(kind, ts[0]))
    ensures Written(s, pos + |TokenText(ts[0])|, ts[1..], digits)
    ensures TextLength(ts) == |TokenText(ts[0])| + TextLength(ts[1..])
  {
  }

  lemma ConsCat<T>(a: seq<T>, b: seq<T>)
    requires b != []
    ensures a + [b[0]] + b[1..] == a + b
  {
    assert b == [b[0]] + b[1..];
  }

  /** The tokens `ts` are read back after `tokens`, then the line end closes the group. */
  lemma {:induction false} ReadBody(s: string, pos: nat, tokens: seq<Token>, kind: TokenType, ts: seq<Token>,
                                    digits: string, line: int)
    requires ReadableFrom(ts, kind) && Written(s, pos, ts, digits) && ParseInt(digits) == Some(line)
    ensures ReadGroupFrom(s, pos, tokens, kind, "").Some?
    ensures ReadGroupFrom(s, pos, tokens, kind, "").value.0 == TokenGroup(tokens + ts + [Newline], line)
    ensures ReadGroupFrom(s, pos, tokens, kind, "").value.1 == pos + TextLength(ts) + |digits| + 2
    decreases |ts|
  {
    if |ts| == 0 {
      assert tokens + ts == tokens;
      ReadLineEnd(s, pos, tokens, kind, digits, line);
    } else {
      WrittenTail(s, pos, kind, ts, digits);
      ReadToken(s, pos, tokens, kind, ts[0]);
      ReadBody(s, pos + |TokenText(ts[0])|, tokens + [ts[0]], NextKind(kind, ts[0]), ts[1..], digits, line);
      ConsCat(tokens, ts);
    }
  }

  /** Text placed between `pre` and `rest` occurs right after `pre`. */
  lemma AtMiddle(pre: string, x: string, rest: string)
    ensures At(pre + x + rest, |pre|, x)
  {
    var s := pre + x + rest;
    assert s[|pre|..|pre| + |x|] == x;
    AtSlice(s, |pre|, x);
  }

  /** The tokens of a group before its last one. */
  function Body(tg: TokenGroup): seq<Token>
    requires |tg.tokens| > 0
  {
    tg.tokens[..|tg.tokens| - 1]
  }

  /** A well-formed group is written with its body, and is its body and the line feed token. */
  lemma WellFormedBody(tg: TokenGroup)
    requires WellFormed(tg)
    ensures HasBody(tg) && tg.tokens == Body(tg) + [Newline] && ReadableFrom(Body(tg), TK_SYMBOL)
  {
    assert Readable(Body(tg)[0], TK_SYMBOL);
    assert tg.tokens[0] == Body(tg)[0];
    assert tg.tokens == Body(tg) + [Newline];
  }

  /** The line feed token adds nothing to the text of a group. */
  lemma GroupTextOfBody(tg: TokenGroup)
    requires WellFormed(tg)
    ensures GroupText(tg.tokens) == GroupText(Body(tg))
  {
    WellFormedBody(tg);
    GroupTextSnoc(Body(tg), Newline);
    assert GroupText(Body(tg)) + TokenText(Newline) == GroupText(Body(tg));
  }

  lemma LineEndAssoc(g: string, digits: string)
    ensures g + "/" + digits + "\n" == g + LineEndText(digits)
  {
    Assoc(g, "/", digits);
    Assoc(g, "/" + digits, "\n");
  }

  /** The text of a record whose group is well formed: its digit, the text of its body and the line end. */
  lemma RecordTextLayout(rd: Record)
    requires WellFormed(rd.tokenGroup)
    ensures RecordText(rd) == [RecordDigit(rd.kind)] + (GroupText(Body(rd.tokenGroup)) + LineEnd(rd.tokenGroup.line))
  {
    WellFormedBody(rd.tokenGroup);
    GroupTextOfBody(rd.tokenGroup);
    LineEndAssoc(GroupText(Body(rd.tokenGroup)), IntToString(rd.tokenGroup.line));
  }

  /** The length of a record's text, counted token by token. */
  lemma RecordTextLength(rd: Record)
    requires WellFormed(rd.tokenGroup)
    ensures |RecordText(rd)| == 1 + TextLength(Body(rd.tokenGroup)) + |IntToString(rd.tokenGroup.line)| + 2
  {
    RecordTextLayout(rd);
    TextLengthOfText(Body(rd.tokenGroup));
  }

  /** Where a record's text occurs: its digit, then its body and line end. */
  lemma RecordLayout(s: string, p: nat, rd: Record)
    requires WellFormed(rd.tokenGroup) && At(s, p, RecordText(rd))
    ensures p < |s| && s[p] == RecordDigit(rd.kind)
    ensures Written(s, p + 1, Body(rd.tokenGroup), IntToString(rd.tokenGroup.line))
  {
    RecordTextLayout(rd);
    AtConcat(s, p, [RecordDigit(rd.kind)], GroupText(Body(rd.tokenGroup)) + LineEnd(rd.tokenGroup.line));
    ValueText(rd.tokenGroup.line);
    WrittenOfText(s, p + 1, Body(rd.tokenGroup), IntToString(rd.tokenGroup.line));
  }

  /** A record digit followed by a group that is read back is read back as that record. */
  lemma ReadRecordAfterDigit(s: string, p: nat, k: RecordType, tg: TokenGroup, next: nat)
    requires p < |s| && s[p] == RecordDigit(k)
    requires ReadGroup(s, p + 1).Some? && ReadGroup(s, p + 1).value.0 == tg && ReadGroup(s, p + 1).value.1 == next
    ensures ReadRecord(s, p).Some? && ReadRecord(s, p).value.0 == Record(k, tg) && ReadRecord(s, p).value.1 == next
  {
  }

  /** A readable body written from `q`, then its line end, is read back as one group. */
  lemma ReadWrittenGroup(s: string, q: nat, body: seq<Token>, digits: string, line: int)
    requires ReadableFrom(body, TK_SYMBOL) && Written(s, q, body, digits) && ParseInt(digits) == Some(line)
    ensures q <= |s| && ReadGroup(s, q).Some?
    ensures ReadGroup(s, q).value.0 == TokenGroup(body + [Newline], line)
    ensures ReadGroup(s, q).value.1 == q + TextLength(body) + |digits| + 2
  {
    ReadBody(s, q, [], TK_SYMBOL, body, digits, line);
    assert [] + body == body;
  }

  /** A record laid out as a digit, a readable body and a line end is read back. */
  lemma ReadLaidOutRecord(s: string, p: nat, k: RecordType, tg: TokenGroup, body: seq<Token>, digits: string)
    requires p < |s| && s[p] == RecordDigit(k)
    requires tg.tokens == body + [Newline] && ReadableFrom(body, TK_SYMBOL)
    requires Written(s, p + 1, body, digits) && ParseInt(digits) == Some(tg.line)
    ensures ReadRecord(s, p).Some? && ReadRecord(s, p).value.0 == Record(k, tg)
    ensures ReadRecord(s, p).value.1 == p + 1 + TextLength(body) + |digits| + 2
  {
    ReadWrittenGroup(s, p + 1, body, digits, tg.line);
    ReadRecordAfterDigit(s, p, k, tg, p + 1 + TextLength(body) + |digits| + 2);
  }

  lemma SomePair<T>(r: Option<(T, nat)>, x: T, n: nat)
    requires r.Some? && r.value.0 == x && r.value.1 == n
    ensures r == Some((x, n))
  {
  }

  /** A well-formed record whose digit and written group occur from `p` is read back. */
  lemma ReadRecordBody(s: string, p: nat, rd: Record)
    requires WellFormed(rd.tokenGroup) && p < |s| && s[p] == RecordDigit(rd.kind)
    requires Written(s, p + 1, Body(rd.tokenGroup), IntToString(rd.tokenGroup.line))
    ensures ReadRecord(s, p) == Some((rd, p + 1 + TextLength(Body(rd.tokenGroup)) + |IntToString(rd.tokenGroup.line)| + 2))
  {
    WellFormedBody(rd.tokenGroup);
    ValueText(rd.tokenGroup.line);
    ReadLaidOutRecord(s, p, rd.kind, rd.tokenGroup, Body(rd.tokenGroup), IntToString(rd.tokenGroup.line));
    SomePair(ReadRecord(s, p), rd, p + 1 + TextLength(Body(rd.tokenGroup)) + |IntToString(rd.tokenGroup.line)| + 2);
  }

  /** A record is read back from where its text occurs, and the reader stops right after it. */
  lemma ReadWrittenRecord(s: string, p: nat, rd: Record)
    requires WellFormed(rd.tokenGroup) && At(s, p, RecordText(rd))
    ensures ReadRecord(s, p) == Some((rd, p + |RecordText(rd)|))
  {
    var n := 1 + TextLength(Body(rd.tokenGroup)) + |IntToString(rd.tokenGroup.line)| + 2;
    assert |RecordText(rd)| == n by { RecordTextLength(rd); }
    assert ReadRecord(s, p) == Some((rd, p + n)) by {
      RecordLayout(s, p, rd);
      ReadRecordBody(s, p, rd);
    }
  }

  /**
   * Reading a record where `Record <<` wrote it gives the record back and
   * stops right after its text, for any text before and after it.
   */
  lemma RecordRoundTrip(pre: string, rd: Record, rest: string)
    requires WellFormed(rd.tokenGroup)
    ensures ReadRecord(pre + RecordText(rd) + rest, |pre|) == Some((rd, |pre| + |RecordText(rd)|))
  {
    AtMiddle(pre, RecordText(rd), rest);
    ReadWrittenRecord(pre + RecordText(rd) + rest, |pre|, rd);
  }

  /** The name loop gathers a name free of `|` and white space. */
  lemma {:induction false} ReadNameValue(s: string, pos: nat, name: string, v: string)
    requires At(s, pos, v) && NameOk(v)
    ensures ReadName(s, pos, name) == ReadName(s, pos + |v|, name + v)
    decreases |v|
  {
    if v != [] {
      assert NameOk(v[1..]) by {
        forall i | 0 <= i < |v[1..]| ensures !IsSpace(v[1..][i]) && v[1..][i] != '|' {
          assert v[1..][i] == v[i + 1];
        }
      }
      assert !IsSpace(v[0]) && v[0] != '|';
      ReadNameValue(s, pos + 1, name + [v[0]], v[1..]);
      assert name + [v[0]] + v[1..] == name + v;
    } else {
      assert name + v == name;
    }
  }

  /** A name followed by `|` is read whole, and the reader stops after the `|`. */
  lemma ReadNameBar(s: string, p: nat, v: string)
    requires NameOk(v) && At(s, p, v) && p + |v| < |s| && s[p + |v|] == '|'
    ensures ReadName(s, p, "") == Some((v, p + |v| + 1))
  {
    ReadNameValue(s, p, "", v);
    assert "" + v == v;
  }

  /** Where a label's text occurs: its name, `|`, its type digit, then the value and a line feed. */
  lemma LabelLayout(s: string, p: nat, v: string, d: string, digits: string)
    requires |d| == 1 && At(s, p, v + "|" + d + digits + "\n")
    ensures At(s, p, v) && p + |v| + 1 < |s| && s[p + |v|] == '|' && s[p + |v| + 1] == d[0]
    ensures At(s, p + |v| + 2, digits + "\n")
  {
    Assoc(v + "|" + d, digits, "\n");
    AtConcat(s, p, v + "|" + d, digits + "\n");
    AtConcat(s, p, v + "|", d);
    AtConcat(s, p, v, "|");
  }

  /** A name, `|`, the type digit of `t` and a line that holds a number are read as a label. */
  lemma ReadLaidOutLabel(s: string, p: nat, name: string, q: nat, t: OperandType, digits: string, n: int, e: nat)
    requires p <= |s| && ReadName(s, p, "") == Some((name, q))
    requires t != OT_NONE && q < |s| && s[q] == (if t == OT_ADDRESS then '0' else '1')
    requires LineText(s, q + 1) == (digits, e) && ParseInt(digits) == Some(n)
    ensures ReadLabel(s, p).Some?
    ensures ReadLabel(s, p).value.0 == Label(Token(TK_SYMBOL, name), t, n)
    ensures ReadLabel(s, p).value.1 == e
  {
    assert SkipSpace(s, q) == q;
  }

  /** Where the label text with the value's digits `digits` occurs, as the reader needs it. */
  lemma LabelLineLayout(s: string, p: nat, v: string, t: OperandType, digits: string)
    requires t != OT_NONE && '\n' !in digits
    requires At(s, p, v + "|" + TypeDigitText(t) + digits + "\n")
    ensures At(s, p, v) && p + |v| + 1 < |s| && s[p + |v|] == '|'
    ensures s[p + |v| + 1] == (if t == OT_ADDRESS then '0' else '1')
    ensures LineText(s, p + |v| + 2) == (digits, p + |v| + |digits| + 3)
  {
    LabelLayout(s, p, v, TypeDigitText(t), digits);
    LineTextAt(s, p + |v| + 2, digits);
  }

  /** A name, `|`, the type digit and a line holding a number are read as a label. */
  lemma ReadLabelDigits(s: string, p: nat, v: string, t: OperandType, digits: string, n: int)
    requires t != OT_NONE && NameOk(v) && ParseInt(digits) == Some(n)
    requires At(s, p, v) && p + |v| + 1 < |s| && s[p + |v|] == '|'
    requires s[p + |v| + 1] == (if t == OT_ADDRESS then '0' else '1')
    requires LineText(s, p + |v| + 2) == (digits, p + |v| + |digits| + 3)
    ensures ReadLabel(s, p).Some?
    ensures ReadLabel(s, p).value.0 == Label(Token(TK_SYMBOL, v), t, n)
    ensures ReadLabel(s, p).value.1 == p + |v| + |digits| + 3
  {
    ReadNameBar(s, p, v);
    ReadLaidOutLabel(s, p, v, p + |v| + 1, t, digits, n, p + |v| + |digits| + 3);
  }

  /** Where a label's text occurs, as the reader needs it. */
  lemma LabelWritten(s: string, p: nat, lb: Label)
    requires lb.labelType != OT_NONE && At(s, p, LabelText(lb))
    ensures ParseInt(IntToString(lb.labelValue)) == Some(lb.labelValue)
    ensures At(s, p, lb.token.value) && p + |lb.token.value| + 1 < |s| && s[p + |lb.token.value|] == '|'
    ensures s[p + |lb.token.value| + 1] == (if lb.labelType == OT_ADDRESS then '0' else '1')
    ensures LineText(s, p + |lb.token.value| + 2)
         == (IntToString(lb.labelValue), p + |lb.token.value| + |IntToString(lb.labelValue)| + 3)
  {
    ValueText(lb.labelValue);
    LabelLineLayout(s, p, lb.token.value, lb.labelType, IntToString(lb.labelValue));
  }

  /**
   * `Label <<` writes one line: the name, `|`, the type digit (`0` for an
   * address, `1` for a literal, none for OT_NONE), the decimal value that
   * reads back as the label's value, and a line feed.
   */
  lemma LabelTextLayout(lb: Label)
    ensures |LabelText(lb)| == |lb.token.value| + |TypeDigitText(lb.labelType)| + |IntToString(lb.labelValue)| + 2
    ensures LabelText(lb)[..|lb.token.value|] == lb.token.value && LabelText(lb)[|lb.token.value|] == '|'
    ensures lb.labelType == OT_NONE <==> |TypeDigitText(lb.labelType)| == 0
    ensures lb.labelType != OT_NONE ==>
              LabelText(lb)[|lb.token.value| + 1] == (if lb.labelType == OT_ADDRESS then '0' else '1')
    ensures ParseInt(LabelText(lb)[|lb.token.value| + 1 + |TypeDigitText(lb.labelType)|..|LabelText(lb)| - 1])
         == Some(lb.labelValue)
    ensures LabelText(lb)[|LabelText(lb)| - 1] == '\n'
    ensures '\n' !in lb.token.value ==> '\n' !in LabelText(lb)[..|LabelText(lb)| - 1]
  {
    LabelTextSlices(lb.token.value, TypeDigitText(lb.labelType), IntToString(lb.labelValue));
    ValueText(lb.labelValue);
  }

  lemma LabelTextSlices(v: string, d: string, digits: string)
    ensures var r := v + "|" + d + digits + "\n";
      && r[..|v|] == v && r[|v|] == '|' && r[|v| + 1 + |d|..|r| - 1] == digits
      && r[..|r| - 1] == v + "|" + d + digits
      && (|d| > 0 ==> r[|v| + 1] == d[0])
  {
  }

  /** A symbol label is made of its name, type and value, and its text is as long as they are. */
  lemma LabelParts(lb: Label)
    requires lb.token.kind == TK_SYMBOL && lb.labelType != OT_NONE
    ensures lb == Label(Token(TK_SYMBOL, lb.token.value), lb.labelType, lb.labelValue)
    ensures |LabelText(lb)| == |lb.token.value| + |IntToString(lb.labelValue)| + 3
  {
  }

  /** A label is read back from where its text occurs, and the reader stops right after it. */
  lemma ReadWrittenLabel(s: string, p: nat, lb: Label)
    requires lb.token.kind == TK_SYMBOL && lb.labelType != OT_NONE && NameOk(lb.token.value)
    requires At(s, p, LabelText(lb))
    ensures ReadLabel(s, p) == Some((lb, p + |LabelText(lb)|))
  {
    LabelWritten(s, p, lb);
    ReadLabelDigits(s, p, lb.token.value, lb.labelType, IntToString(lb.labelValue), lb.labelValue);
    LabelParts(lb);
    SomePair(ReadLabel(s, p), lb, p + |LabelText(lb)|);
  }

  /**
   * A symbol label of type OT_ADDRESS or OT_LITERAL whose name holds no `|`
   * and no white space is read back as written.
   */
  lemma LabelRoundTrip(pre: string, lb: Label, rest: string)
    requires lb.token.kind == TK_SYMBOL && lb.labelType != OT_NONE && NameOk(lb.token.value)
    ensures ReadLabel(pre + LabelText(lb) + rest, |pre|) == Some((lb, |pre| + |LabelText(lb)|))
  {
    AtMiddle(pre, LabelText(lb), rest);
    ReadWrittenLabel(pre + LabelText(lb) + rest, |pre|, lb);
  }
}
