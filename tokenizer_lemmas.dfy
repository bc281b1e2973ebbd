/**
 * What the lexer promises about the token groups it produces, proved about
 * the specification functions of module Tokenizer (and so, through the
 * postconditions of `Tokenize` and `ValidateTokens`, about the methods).
 */
module TokenizerProperties {
  import opened Utils
  import opened Kinds
  import opened Tokenizer

  /** The text with every space and tab removed. */
  function StripBlanks(s: string): (r: string)
    ensures forall c :: c in r ==> c in s && !IsBlank(c)
  {
    if |s| == 0 then []
    else if IsBlank(s[0]) then StripBlanks(s[1..])
    else [s[0]] + StripBlanks(s[1..])
  }

  function CountNewlines(s: string): nat {
    if |s| == 0 then 0 else (if s[0] == '\n' then 1 else 0) + CountNewlines(s[1..])
  }

  /** A group as the lexer emits it: two tokens at least, one line feed, and it is last. */
  predicate WellShaped(g: seq<Token>) {
    && |g| >= 2
    && g[|g| - 1].kind == TK_NEWLINE
    && forall j :: 0 <= j < |g| - 1 ==> g[j].kind != TK_NEWLINE
  }

  /** Every token of the group carries the line of its first token. */
  predicate OnOneLine(g: seq<Token>) {
    forall j :: 0 <= j < |g| ==> g[j].line == g[0].line
  }

  /** What the lexer keeps true between two characters. */
  predicate Inv(st: LexState) {
    && st.line >= 1
    && (forall j :: 0 <= j < |st.group| ==> st.group[j].line == st.line && st.group[j].kind != TK_NEWLINE)
    && (forall i :: 0 <= i < |st.groups| ==>
          WellShaped(st.groups[i]) && OnOneLine(st.groups[i]) && 1 <= st.groups[i][0].line < st.line)
    && (forall i, j :: 0 <= i < j < |st.groups| ==> st.groups[i][0].line < st.groups[j][0].line)
  }

  // ---------------------------------------------------------------------
  // Running over a concatenation, and the first error winning

  lemma {:induction false} RunAppend(st: LexState, a: string, b: string)
    ensures Run(st, a + b) == match Run(st, a) case Err(e) => Err(e) case Ok(m) => Run(m, b)
    decreases |a|
  {
    if a == [] {
      assert a + b == b;
    } else {
      assert (a + b)[0] == a[0];
      assert (a + b)[1..] == a[1..] + b;
      match Step(st, a[0])
      case Err(e) =>
      case Ok(st') => RunAppend(st', a[1..], b);
    }
  }

  /** An error in a prefix of the text is the error of the whole text. */
  lemma FirstErrorWins(a: string, b: string, e: Error)
    requires Run(Start, a) == Err(e)
    ensures Lex(a + b) == Err(e)
  {
    RunAppend(Start, a, b);
  }

  // ---------------------------------------------------------------------
  // Spaces and tabs do not separate tokens

  lemma {:induction false} RunIgnoresBlanks(st: LexState, s: string)
    ensures Run(st, StripBlanks(s)) == Run(st, s)
    decreases |s|
  {
    if s != [] {
      if IsBlank(s[0]) {
        RunIgnoresBlanks(st, s[1..]);
      } else {
        var t := [s[0]] + StripBlanks(s[1..]);
        assert t[0] == s[0] && t[1..] == StripBlanks(s[1..]);
        match Step(st, s[0])
        case Err(e) =>
        case Ok(st') => RunIgnoresBlanks(st', s[1..]);
      }
    }
  }

  /** Removing every space and tab leaves the result of tokenize unchanged. */
  lemma LexIgnoresBlanks(raw: string)
    ensures Lex(StripBlanks(raw)) == Lex(raw)
  {
    RunIgnoresBlanks(Start, raw);
  }

  // ---------------------------------------------------------------------
  // Line numbers

  lemma {:induction false} RunCountsLines(st: LexState, s: string)
    requires Run(st, s).Ok?
    ensures Run(st, s).value.line == st.line + CountNewlines(s)
    decreases |s|
  {
    if s != [] {
      var st' := Step(st, s[0]).value;
      assert st'.line == st.line + (if s[0] == '\n' then 1 else 0);
      RunCountsLines(st', s[1..]);
    }
  }

  /** What appendToken adds: flushed symbols or numbers, then the punctuation token, all on the current line. */
  lemma AppendAdds(st: LexState, kind: TokenType, value: string)
    requires Append(st, kind, value).Ok?
    ensures var a := Append(st, kind, value).value;
      && a.line == st.line && a.groups == st.groups
      && |a.group| > |st.group| && a.group[..|st.group|] == st.group
      && a.group[|a.group| - 1] == Token(kind, value, st.line)
      && (forall j :: |st.group| <= j < |a.group| - 1 ==>
            a.group[j].line == st.line && a.group[j].kind in {TK_SYMBOL, TK_ADDRESS, TK_LITERAL})
  {
    if st.buffer != [] {
      var k := ValidateString(st.buffer, st.previous, st.line).value;
      assert k in {TK_SYMBOL, TK_ADDRESS, TK_LITERAL};
    }
  }

  lemma AppendKeepsInv(st: LexState, kind: TokenType, value: string)
    requires Inv(st) && kind != TK_NEWLINE
    requires Append(st, kind, value).Ok?
    ensures Inv(Append(st, kind, value).value)
  {
    AppendAdds(st, kind, value);
    var a := Append(st, kind, value).value;
    forall j | 0 <= j < |a.group|
      ensures a.group[j].line == a.line && a.group[j].kind != TK_NEWLINE
    {
      if j < |st.group| {
        assert a.group[j] == a.group[..|st.group|][j];
      }
    }
  }

  lemma NewlineKeepsInv(st: LexState)
    requires Inv(st)
    requires Append(st, TK_NEWLINE, NewlineValue).Ok?
    ensures Inv(CloseLine(Append(st, TK_NEWLINE, NewlineValue).value))
  {
    AppendAdds(st, TK_NEWLINE, NewlineValue);
    var a := Append(st, TK_NEWLINE, NewlineValue).value;
    var n := CloseLine(a);
    forall j | 0 <= j < |a.group|
      ensures a.group[j].line == st.line && (j < |a.group| - 1 ==> a.group[j].kind != TK_NEWLINE)
    {
      if j < |st.group| {
        assert a.group[j] == a.group[..|st.group|][j];
      }
    }
    if |a.group| > 1 {
      assert WellShaped(a.group) && OnOneLine(a.group);
      assert n.groups == st.groups + [a.group];
      forall i | 0 <= i < |n.groups|
        ensures WellShaped(n.groups[i]) && OnOneLine(n.groups[i]) && 1 <= n.groups[i][0].line < n.line
      {
        if i < |st.groups| {
          assert n.groups[i] == st.groups[i];
        }
      }
    }
  }

  lemma StepKeepsInv(st: LexState, c: char)
    requires Inv(st)
    requires Step(st, c).Ok?
    ensures Inv(Step(st, c).value)
  {
    if c == '\n' {
      NewlineKeepsInv(st);
    } else if IsPunctuation(c) {
      var (kind, value) := PunctuationOf(c);
      assert Step(st, c) == Append(st, kind, value);
      AppendKeepsInv(st, kind, value);
    }
  }

  lemma {:induction false} RunKeepsInv(st: LexState, s: string)
    requires Inv(st)
    requires Run(st, s).Ok?
    ensures Inv(Run(st, s).value)
    decreases |s|
  {
    if s != [] {
      StepKeepsInv(st, s[0]);
      RunKeepsInv(Step(st, s[0]).value, s[1..]);
    }
  }

  /**
   * Every group tokenize returns has at least two tokens and ends with its
   * only line feed; all its tokens carry one line number, between 1 and the
   * number of line feeds in the text; the line numbers of successive groups
   * strictly increase.
   */
  lemma LexShape(raw: string)
    requires Lex(raw).Ok?
    ensures var gs := Lex(raw).value;
      && (forall i :: 0 <= i < |gs| ==>
            WellShaped(gs[i]) && OnOneLine(gs[i]) && 1 <= gs[i][0].line <= CountNewlines(raw))
      && (forall i, j :: 0 <= i < j < |gs| ==> gs[i][0].line < gs[j][0].line)
  {
    RunKeepsInv(Start, raw);
    RunCountsLines(Start, raw);
  }

  // ---------------------------------------------------------------------
  // The group of each line

  lemma {:induction false} NoNewlineCount(s: string)
    requires '\n' !in s
    ensures CountNewlines(s) == 0
    decreases |s|
  {
    if |s| > 0 {
      assert s[0] != '\n' && '\n' !in s[1..];
      NoNewlineCount(s[1..]);
    }
  }

  /** A character other than a line feed leaves the line and the finished groups alone. */
  lemma StepWithinLine(st: LexState, c: char)
    requires c != '\n' && Step(st, c).Ok?
    ensures Step(st, c).value.line == st.line && Step(st, c).value.groups == st.groups
  {
    if IsPunctuation(c) {
      var (kind, value) := PunctuationOf(c);
      assert Step(st, c) == Append(st, kind, value);
      AppendAdds(st, kind, value);
    }
  }

  /** The group a line feed closes carries the line the line feed ends. */
  lemma ClosedGroupLine(st: LexState)
    requires Inv(st)
    requires Append(st, TK_NEWLINE, NewlineValue).Ok?
    ensures var a := Append(st, TK_NEWLINE, NewlineValue).value;
      && |a.group| == |st.group| + (if |st.buffer| > 0 then 2 else 1)
      && a.group[0].line == st.line && a.line == st.line && a.groups == st.groups
  {
    AppendAdds(st, TK_NEWLINE, NewlineValue);
    var a := Append(st, TK_NEWLINE, NewlineValue).value;
    if |st.group| > 0 {
      assert a.group[0] == a.group[..|st.group|][0];
    }
  }

  /** Before the first character of a line, nothing is pending: the buffer and the group are empty. */
  lemma AtLineStart(a: string)
    requires |a| == 0 || a[|a| - 1] == '\n'
    requires Run(Start, a).Ok?
    ensures |Run(Start, a).value.buffer| == 0 && |Run(Start, a).value.group| == 0
  {
    if |a| > 0 {
      var b := a[..|a| - 1];
      assert a == b + "\n";
      assert "\n"[1..] == "";
      RunAppend(Start, b, "\n");
    }
  }

  /** A line holds content when some character of it is not a blank. */
  predicate HasContent(l: string) {
    exists i :: 0 <= i < |l| && !IsBlank(l[i])
  }

  /** Within a line, something is pending once a character other than a blank was read. */
  lemma StepPending(st: LexState, c: char)
    requires c != '\n' && Step(st, c).Ok?
    ensures var n := Step(st, c).value;
      |n.buffer| + |n.group| > 0 <==> |st.buffer| + |st.group| > 0 || !IsBlank(c)
  {
    if IsPunctuation(c) {
      var (kind, value) := PunctuationOf(c);
      assert Step(st, c) == Append(st, kind, value);
      AppendAdds(st, kind, value);
    }
  }

  lemma {:induction false} RunPending(st: LexState, l: string)
    requires '\n' !in l && Run(st, l).Ok?
    ensures var r := Run(st, l).value;
      |r.buffer| + |r.group| > 0 <==> |st.buffer| + |st.group| > 0 || HasContent(l)
    decreases |l|
  {
    if |l| > 0 {
      assert l[0] != '\n' && '\n' !in l[1..];
      StepPending(st, l[0]);
      RunPending(Step(st, l[0]).value, l[1..]);
      assert HasContent(l) <==> !IsBlank(l[0]) || HasContent(l[1..]) by {
        if HasContent(l[1..]) {
          var i :| 0 <= i < |l[1..]| && !IsBlank(l[1..][i]);
          assert l[i + 1] == l[1..][i];
        }
        if HasContent(l) && IsBlank(l[0]) {
          var i :| 0 <= i < |l| && !IsBlank(l[i]);
          assert l[1..][i - 1] == l[i];
        }
      }
    }
  }

  /** One line read from a line start: its group, if any, is added on the current line. */
  lemma LineGroupFrom(m: LexState, l: string)
    requires Inv(m) && |m.buffer| == 0 && |m.group| == 0
    requires '\n' !in l
    requires Run(m, l + "\n").Ok?
    ensures var after := Run(m, l + "\n").value.groups;
      if HasContent(l) then
        && |after| == |m.groups| + 1 && after[..|m.groups|] == m.groups
        && |after[|m.groups|]| > 0 && after[|m.groups|][0].line == m.line
      else after == m.groups
  {
    RunAppend(m, l, "\n");
    var e := Run(m, l).value;
    RunWithoutNewlineKeepsGroups(m, l);
    RunCountsLines(m, l);
    NoNewlineCount(l);
    RunKeepsInv(m, l);
    RunPending(m, l);
    assert "\n"[1..] == "";
    ClosedGroupLine(e);
    var n := Append(e, TK_NEWLINE, NewlineValue).value;
    assert Run(m, l + "\n") == Ok(CloseLine(n));
    if HasContent(l) {
      assert CloseLine(n).groups == m.groups + [n.group];
      assert CloseLine(n).groups[..|m.groups|] == m.groups;
    }
  }

  /**
   * Reading one more line `l` and its line feed adds exactly one group when
   * `l` holds a character other than a blank, and none otherwise; the added
   * group carries the line of that line feed, one more than the line feeds
   * before it.
   */
  lemma LineGroup(a: string, l: string)
    requires |a| == 0 || a[|a| - 1] == '\n'
    requires '\n' !in l
    requires Run(Start, a + l + "\n").Ok?
    ensures Run(Start, a).Ok?
    ensures var before := Run(Start, a).value.groups;
            var after := Run(Start, a + l + "\n").value.groups;
      if HasContent(l) then
        && |after| == |before| + 1 && after[..|before|] == before
        && |after[|before|]| > 0 && after[|before|][0].line == 1 + CountNewlines(a)
      else after == before
  {
    assert a + l + "\n" == a + (l + "\n");
    RunAppend(Start, a, l + "\n");
    AtLineStart(a);
    RunCountsLines(Start, a);
    RunKeepsInv(Start, a);
    LineGroupFrom(Run(Start, a).value, l);
  }

  lemma {:induction false} ValidateGroupsPrefix(previous: TokenType, gs: seq<seq<Token>>, g: seq<Token>)
    requires ValidateGroups(previous, gs + [g]).Ok?
    ensures ValidateGroups(previous, gs).Ok?
    decreases |gs|
  {
    if |gs| > 0 {
      assert (gs + [g])[0] == gs[0];
      assert (gs + [g])[1..] == gs[1..] + [g];
      ValidateGroupsPrefix(ValidateGroup(previous, gs[0]).value, gs[1..], g);
    }
  }

  /**
   * tokenize line by line: when a text ending with line `l` is accepted, so
   * is the text before `l`, and `l` contributes one group, on its own line,
   * exactly when it holds a character other than a blank.
   */
  lemma LexLineGroup(a: string, l: string)
    requires |a| == 0 || a[|a| - 1] == '\n'
    requires '\n' !in l
    requires Lex(a + l + "\n").Ok?
    ensures Lex(a).Ok?
    ensures var before := Lex(a).value;
            var after := Lex(a + l + "\n").value;
      if HasContent(l) then
        && |after| == |before| + 1 && after[..|before|] == before
        && |after[|before|]| > 0 && after[|before|][0].line == 1 + CountNewlines(a)
      else after == before
  {
    LineGroup(a, l);
    var before := Run(Start, a).value.groups;
    var after := Run(Start, a + l + "\n").value.groups;
    if HasContent(l) {
      assert after == before + [after[|before|]];
      ValidateGroupsPrefix(TK_NEWLINE, before, after[|before|]);
    }
  }

  // ---------------------------------------------------------------------
  // Text after the last line feed

  lemma {:induction false} RunWithoutNewlineKeepsGroups(st: LexState, s: string)
    requires '\n' !in s
    requires Run(st, s).Ok?
    ensures Run(st, s).value.groups == st.groups
    decreases |s|
  {
    if s != [] {
      assert s[0] != '\n' && '\n' !in s[1..];
      RunWithoutNewlineKeepsGroups(Step(st, s[0]).value, s[1..]);
    }
  }

  /** Characters after the last line feed never produce a group: there is no flush after the loop. */
  lemma TrailingTextIgnored(raw: string, tail: string)
    requires '\n' !in tail
    requires Lex(raw + tail).Ok?
    ensures Lex(raw + tail) == Lex(raw)
  {
    RunAppend(Start, raw, tail);
    RunWithoutNewlineKeepsGroups(Run(Start, raw).value, tail);
  }

  // ---------------------------------------------------------------------
  // Unrecognised characters

  /** A character outside the lexical set stops tokenize with ER_UNRECOGNIZED_CHAR at its line. */
  lemma UnrecognizedCharFails(a: string, c: char, b: string)
    requires !IsLexical(c)
    requires Run(Start, a).Ok?
    ensures Lex(a + [c] + b) == Err(Error(ER_UNRECOGNIZED_CHAR, 1 + CountNewlines(a)))
  {
    RunCountsLines(Start, a);
    assert a + [c] + b == a + ([c] + b);
    RunAppend(Start, a, [c] + b);
    var m := Run(Start, a).value;
    assert ([c] + b)[0] == c;
  }

  // ---------------------------------------------------------------------
  // validateTokens accepts exactly the streams that obey the adjacency table

  function Flatten(gs: seq<seq<Token>>): seq<Token> {
    if |gs| == 0 then [] else gs[0] + Flatten(gs[1..])
  }

  /** The kind before position `j` of `ts`, where `previous` stands before position 0. */
  function KindBefore(previous: TokenType, ts: seq<Token>, j: nat): TokenType
    requires j <= |ts|
  {
    if j == 0 then previous else ts[j - 1].kind
  }

  /** Each token may follow the one before it (the first one, `previous`). */
  predicate Chain(previous: TokenType, ts: seq<Token>) {
    forall j :: 0 <= j < |ts| ==> Follows(KindBefore(previous, ts, j), ts[j].kind)
  }

  function LastKind(previous: TokenType, ts: seq<Token>): TokenType {
    KindBefore(previous, ts, |ts|)
  }

  /** Position `j` is the first token of `ts` that may not follow the one before it. */
  predicate FirstBreak(previous: TokenType, ts: seq<Token>, j: int) {
    && 0 <= j < |ts|
    && !Follows(KindBefore(previous, ts, j), ts[j].kind)
    && forall i :: 0 <= i < j ==> Follows(KindBefore(previous, ts, i), ts[i].kind)
  }

  /** A group fails at the line of its first token that may not follow its predecessor. */
  lemma {:induction false} ValidateGroupFailsAt(previous: TokenType, g: seq<Token>, j: int)
    requires FirstBreak(previous, g, j)
    ensures ValidateGroup(previous, g) == Err(Error(ER_UNEXPECTED_TOKEN, g[j].line))
    decreases j
  {
    if j > 0 {
      assert Follows(KindBefore(previous, g, 0), g[0].kind);
      var rest := g[1..];
      forall i | 0 <= i < j - 1
        ensures Follows(KindBefore(g[0].kind, rest, i), rest[i].kind)
      {
        assert rest[i] == g[i + 1];
        assert Follows(KindBefore(previous, g, i + 1), g[i + 1].kind);
      }
      assert rest[j - 1] == g[j];
      assert KindBefore(g[0].kind, rest, j - 1) == KindBefore(previous, g, j);
      ValidateGroupFailsAt(g[0].kind, rest, j - 1);
    }
  }

  lemma {:induction false} ValidateGroupChain(previous: TokenType, g: seq<Token>)
    ensures ValidateGroup(previous, g).Ok? <==> Chain(previous, g)
    ensures ValidateGroup(previous, g).Ok? ==> ValidateGroup(previous, g).value == LastKind(previous, g)
    ensures ValidateGroup(previous, g).Err? ==> ValidateGroup(previous, g).error.kind == ER_UNEXPECTED_TOKEN
    decreases |g|
  {
    if g != [] {
      var rest := g[1..];
      ValidateGroupChain(g[0].kind, rest);
      assert LastKind(g[0].kind, rest) == LastKind(previous, g);
      if Chain(previous, g) {
        assert Follows(KindBefore(previous, g, 0), g[0].kind);
        forall j | 0 <= j < |rest|
          ensures Follows(KindBefore(g[0].kind, rest, j), rest[j].kind)
        {
          assert rest[j] == g[j + 1];
          assert Follows(KindBefore(previous, g, j + 1), g[j + 1].kind);
        }
      }
      if Follows(previous, g[0].kind) && Chain(g[0].kind, rest) {
        forall j | 0 <= j < |g|
          ensures Follows(KindBefore(previous, g, j), g[j].kind)
        {
          if j > 0 {
            assert g[j] == rest[j - 1];
            assert Follows(KindBefore(g[0].kind, rest, j - 1), rest[j - 1].kind);
          }
        }
      }
    }
  }

  /**
   * One group passes exactly when each token may follow the one before it;
   * it then yields its last kind, and otherwise fails with ER_UNEXPECTED_TOKEN
   * at the line of the first token that may not.
   */
  lemma ValidateGroupIsChain(previous: TokenType, g: seq<Token>)
    ensures ValidateGroup(previous, g).Ok? <==> Chain(previous, g)
    ensures ValidateGroup(previous, g).Ok? ==> ValidateGroup(previous, g).value == LastKind(previous, g)
    ensures ValidateGroup(previous, g).Err? ==> ValidateGroup(previous, g).error.kind == ER_UNEXPECTED_TOKEN
    ensures forall j :: FirstBreak(previous, g, j) ==>
              ValidateGroup(previous, g) == Err(Error(ER_UNEXPECTED_TOKEN, g[j].line))
  {
    ValidateGroupChain(previous, g);
    forall j | FirstBreak(previous, g, j)
      ensures ValidateGroup(previous, g) == Err(Error(ER_UNEXPECTED_TOKEN, g[j].line))
    {
      ValidateGroupFailsAt(previous, g, j);
    }
  }

  lemma {:induction false} ChainAppend(previous: TokenType, a: seq<Token>, b: seq<Token>)
    ensures Chain(previous, a + b) <==> Chain(previous, a) && Chain(LastKind(previous, a), b)
  {
    var ab := a + b;
    assert forall j :: 0 <= j <= |a| ==> KindBefore(previous, ab, j) == KindBefore(previous, a, j);
    assert forall j :: 0 <= j <= |b| ==> KindBefore(previous, ab, |a| + j) == KindBefore(LastKind(previous, a), b, j);
    if Chain(previous, a) && Chain(LastKind(previous, a), b) {
      forall j | 0 <= j < |ab|
        ensures Follows(KindBefore(previous, ab, j), ab[j].kind)
      {
        if j >= |a| {
          assert ab[j] == b[j - |a|];
          assert Follows(KindBefore(LastKind(previous, a), b, j - |a|), b[j - |a|].kind);
        } else {
          assert ab[j] == a[j];
          assert Follows(KindBefore(previous, a, j), a[j].kind);
        }
      }
    }
    if Chain(previous, ab) {
      forall j | 0 <= j < |a|
        ensures Follows(KindBefore(previous, a, j), a[j].kind)
      {
        assert ab[j] == a[j];
        assert Follows(KindBefore(previous, ab, j), ab[j].kind);
      }
      forall j | 0 <= j < |b|
        ensures Follows(KindBefore(LastKind(previous, a), b, j), b[j].kind)
      {
        assert ab[|a| + j] == b[j];
        assert Follows(KindBefore(previous, ab, |a| + j), ab[|a| + j].kind);
      }
    }
  }

  /** The first break of a concatenation lies in the first part, or after a first part that has none. */
  lemma FirstBreakAppend(previous: TokenType, a: seq<Token>, b: seq<Token>, j: int)
    requires FirstBreak(previous, a + b, j)
    ensures j < |a| ==> FirstBreak(previous, a, j) && (a + b)[j] == a[j]
    ensures j >= |a| ==> Chain(previous, a) && FirstBreak(LastKind(previous, a), b, j - |a|) && (a + b)[j] == b[j - |a|]
  {
    var ab := a + b;
    assert forall i :: 0 <= i <= |a| ==> KindBefore(previous, ab, i) == KindBefore(previous, a, i);
    assert forall i :: 0 <= i <= |b| ==> KindBefore(previous, ab, |a| + i) == KindBefore(LastKind(previous, a), b, i);
    if j < |a| {
      forall i | 0 <= i < j ensures Follows(KindBefore(previous, a, i), a[i].kind) {
        assert ab[i] == a[i];
        assert Follows(KindBefore(previous, ab, i), ab[i].kind);
      }
    } else {
      forall i | 0 <= i < |a| ensures Follows(KindBefore(previous, a, i), a[i].kind) {
        assert ab[i] == a[i];
        assert Follows(KindBefore(previous, ab, i), ab[i].kind);
      }
      forall i | 0 <= i < j - |a| ensures Follows(KindBefore(LastKind(previous, a), b, i), b[i].kind) {
        assert ab[|a| + i] == b[i];
        assert Follows(KindBefore(previous, ab, |a| + i), ab[|a| + i].kind);
      }
      assert ab[j] == b[j - |a|];
    }
  }

  /** validateTokens fails at the line of the first token of the whole stream that may not follow its predecessor. */
  lemma {:induction false} ValidateGroupsFailsAt(previous: TokenType, gs: seq<seq<Token>>, j: int)
    requires FirstBreak(previous, Flatten(gs), j)
    ensures ValidateGroups(previous, gs) == Err(Error(ER_UNEXPECTED_TOKEN, Flatten(gs)[j].line))
    decreases |gs|
  {
    FirstBreakAppend(previous, gs[0], Flatten(gs[1..]), j);
    ValidateGroupIsChain(previous, gs[0]);
    if j >= |gs[0]| {
      ValidateGroupsFailsAt(LastKind(previous, gs[0]), gs[1..], j - |gs[0]|);
    }
  }

  /** validateTokens succeeds on exactly the streams in which every token may follow the one before. */
  lemma {:induction false} ValidateGroupsIsChain(previous: TokenType, gs: seq<seq<Token>>)
    ensures ValidateGroups(previous, gs).Ok? <==> Chain(previous, Flatten(gs))
    ensures forall j :: FirstBreak(previous, Flatten(gs), j) ==>
              ValidateGroups(previous, gs) == Err(Error(ER_UNEXPECTED_TOKEN, Flatten(gs)[j].line))
    decreases |gs|
  {
    forall j | FirstBreak(previous, Flatten(gs), j)
      ensures ValidateGroups(previous, gs) == Err(Error(ER_UNEXPECTED_TOKEN, Flatten(gs)[j].line))
    {
      ValidateGroupsFailsAt(previous, gs, j);
    }
    if gs != [] {
      ValidateGroupChain(previous, gs[0]);
      ChainAppend(previous, gs[0], Flatten(gs[1..]));
      if ValidateGroup(previous, gs[0]).Ok? {
        ValidateGroupsIsChain(LastKind(previous, gs[0]), gs[1..]);
      }
    }
  }

  /**
   * In a stream of well-shaped groups that validateTokens accepts, every
   * group begins with a symbol and obeys the adjacency table from its start.
   */
  lemma {:induction false} AcceptedGroupsStartWithSymbol(gs: seq<seq<Token>>)
    requires forall i :: 0 <= i < |gs| ==> WellShaped(gs[i])
    requires ValidateGroups(TK_NEWLINE, gs).Ok?
    ensures forall i :: 0 <= i < |gs| ==> |gs[i]| > 0 && gs[i][0].kind == TK_SYMBOL && Chain(TK_NEWLINE, gs[i])
    decreases |gs|
  {
    if gs != [] {
      ValidateGroupChain(TK_NEWLINE, gs[0]);
      assert Follows(KindBefore(TK_NEWLINE, gs[0], 0), gs[0][0].kind);
      AcceptedGroupsStartWithSymbol(gs[1..]);
      forall i | 0 <= i < |gs|
        ensures |gs[i]| > 0 && gs[i][0].kind == TK_SYMBOL && Chain(TK_NEWLINE, gs[i])
      {
        if i > 0 {
          assert gs[i] == gs[1..][i - 1];
        }
      }
    }
  }

  /** The groups tokenize returns all begin with a symbol and obey the adjacency table. */
  lemma LexedGroupsAreAccepted(raw: string)
    requires Lex(raw).Ok?
    ensures var gs := Lex(raw).value;
      forall i :: 0 <= i < |gs| ==> WellShaped(gs[i]) && gs[i][0].kind == TK_SYMBOL && Chain(TK_NEWLINE, gs[i])
  {
    LexShape(raw);
    AcceptedGroupsStartWithSymbol(Lex(raw).value);
  }
}
