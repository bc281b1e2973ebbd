/**
 * The lexer as tokenizer.h literally behaves. Its diagnostics are built as
 * `utils::Error(...)` temporaries that are never asserted, so they have no
 * effect: an unrecognized character is skipped, and validateTokens returns
 * without a result whatever the adjacency of the kinds. (A flushed buffer
 * that fails its hex check leaves the token kind uninitialised; that case
 * is kept as an error here, as in module Tokenizer.)
 *
 * The lemmas exhibit inputs that the lexer as written accepts although
 * the diagnostics say they are wrong; module Tokenizer, which the rest of
 * the model uses, reports them.
 */
module TokenizerAsWritten {
  import opened Utils
  import opened Kinds
  import opened Tokenizer
  import Assembler

  /** One turn of the main loop when the ER_UNRECOGNIZED_CHAR diagnostic is discarded. */
  function StepAsWritten(st: LexState, c: char): Result<LexState>
  {
    if IsLexical(c) then Step(st, c) else Ok(st)
  }

  function RunAsWritten(st: LexState, s: string): Result<LexState>
    decreases |s|
  {
    if |s| == 0 then Ok(st)
    else
      var st' :- StepAsWritten(st, s[0]);
      RunAsWritten(st', s[1..])
  }

  /** tokenize with validateTokens' ER_UNEXPECTED_TOKEN discarded: the groups are returned unchecked. */
  function LexAsWritten(raw: string): Result<seq<seq<Token>>> {
    var st :- RunAsWritten(Start, raw);
    Ok(st.groups)
  }

  /** On text made of accepted characters only, the two lexers build the same groups. */
  lemma {:induction false} RunAsWrittenOnLexical(st: LexState, s: string)
    requires forall i :: 0 <= i < |s| ==> IsLexical(s[i])
    ensures RunAsWritten(st, s) == Run(st, s)
    decreases |s|
  {
    if |s| > 0 {
      match Step(st, s[0])
      case Err(_) =>
      case Ok(st') => RunAsWrittenOnLexical(st', s[1..]);
    }
  }

  // Two example lines, lexed step by step.

  const SymA := Token(TK_SYMBOL, "A", 1)
  const SymB := Token(TK_SYMBOL, "B", 1)
  const Eq1 := Token(TK_EQUAL, EqualValue, 1)
  const Nl1 := Token(TK_NEWLINE, NewlineValue, 1)
  const AfterA := LexState("A", TK_SYMBOL, 1, [], [])
  const AfterEq := LexState("", TK_EQUAL, 1, [SymA, Eq1], [])
  const AfterB := LexState("B", TK_EQUAL, 1, [SymA, Eq1], [])
  const AfterLineA := LexState("", TK_NEWLINE, 2, [], [[SymA, Nl1]])
  const AfterLineAB := LexState("", TK_NEWLINE, 2, [], [[SymA, Eq1, SymB, Nl1]])
  const AfterLineAEq := LexState("", TK_NEWLINE, 2, [], [[SymA, Eq1, Nl1]])

  lemma StepA()
    ensures Step(Start, 'A') == Ok(AfterA)
  {
    assert Start.buffer + ['A'] == "A";
  }

  lemma StepEq()
    ensures Step(AfterA, '=') == Ok(AfterEq)
  {
    assert AfterA.group + [SymA, Eq1] == [SymA, Eq1];
  }

  lemma StepB()
    ensures Step(AfterEq, 'B') == Ok(AfterB)
  {
    assert AfterEq.buffer + ['B'] == "B";
  }

  lemma StepNewlineAfterA()
    ensures Step(AfterA, '\n') == Ok(AfterLineA)
  {
    assert AfterA.group + [SymA, Nl1] == [SymA, Nl1];
    assert AfterA.groups + [[SymA, Nl1]] == [[SymA, Nl1]];
  }

  lemma StepNewlineAfterB()
    ensures Step(AfterB, '\n') == Ok(AfterLineAB)
  {
    assert AfterB.group + [SymB, Nl1] == [SymA, Eq1, SymB, Nl1];
    assert AfterB.groups + [[SymA, Eq1, SymB, Nl1]] == [[SymA, Eq1, SymB, Nl1]];
  }

  lemma RunLineA()
    ensures RunAsWritten(Start, "A#\n") == Ok(AfterLineA)
    ensures Run(Start, "A#\n") == Err(Error(ER_UNRECOGNIZED_CHAR, 1))
  {
    assert "A#\n"[1..] == "#\n" && "#\n"[1..] == "\n" && "\n"[1..] == "";
    StepA();
    StepNewlineAfterA();
  }

  lemma RunLineAB()
    ensures Run(Start, "A=B\n") == Ok(AfterLineAB)
  {
    assert "A=B\n"[1..] == "=B\n" && "=B\n"[1..] == "B\n" && "B\n"[1..] == "\n" && "\n"[1..] == "";
    StepA();
    StepEq();
    StepB();
    StepNewlineAfterB();
  }

  /** `A#` followed by a line feed: as written, `#` is dropped and the line lexes as `A`. */
  lemma UnrecognizedCharIgnored()
    ensures LexAsWritten("A#\n") == Ok([[Token(TK_SYMBOL, "A", 1), Token(TK_NEWLINE, NewlineValue, 1)]])
    ensures Lex("A#\n") == Err(Error(ER_UNRECOGNIZED_CHAR, 1))
  {
    RunLineA();
  }

  lemma RunAsWrittenLineAB()
    ensures RunAsWritten(Start, "A=B\n") == Ok(AfterLineAB)
  {
    RunLineAB();
    RunAsWrittenOnLexical(Start, "A=B\n");
  }

  lemma ValidateLineAB()
    ensures ValidateGroups(TK_NEWLINE, [[SymA, Eq1, SymB, Nl1]]) == Err(Error(ER_UNEXPECTED_TOKEN, 1))
  {
    assert [SymA, Eq1, SymB, Nl1][1..] == [Eq1, SymB, Nl1];
    assert [Eq1, SymB, Nl1][1..] == [SymB, Nl1];
    assert ValidateGroup(TK_EQUAL, [SymB, Nl1]) == Err(Error(ER_UNEXPECTED_TOKEN, 1));
    assert ValidateGroup(TK_SYMBOL, [Eq1, SymB, Nl1]) == Err(Error(ER_UNEXPECTED_TOKEN, 1));
    assert ValidateGroup(TK_NEWLINE, [SymA, Eq1, SymB, Nl1]) == Err(Error(ER_UNEXPECTED_TOKEN, 1));
  }

  /** `A=B` followed by a line feed: a symbol may not follow `=`, yet as written the group is returned. */
  lemma UnexpectedTokenIgnored()
    ensures LexAsWritten("A=B\n") == Ok([[SymA, Eq1, SymB, Nl1]])
    ensures Lex("A=B\n") == Err(Error(ER_UNEXPECTED_TOKEN, 1))
  {
    RunLineAB();
    RunAsWrittenLineAB();
    ValidateLineAB();
  }

  lemma StepNewlineAfterEq()
    ensures Step(AfterEq, '\n') == Ok(AfterLineAEq)
  {
    assert AfterEq.group + [Nl1] == [SymA, Eq1, Nl1];
    assert AfterEq.groups + [[SymA, Eq1, Nl1]] == [[SymA, Eq1, Nl1]];
  }

  lemma RunLineAEq()
    ensures Run(Start, "A=\n") == Ok(AfterLineAEq)
    ensures RunAsWritten(Start, "A=\n") == Ok(AfterLineAEq)
  {
    assert "A=\n"[1..] == "=\n" && "=\n"[1..] == "\n" && "\n"[1..] == "";
    StepA();
    StepEq();
    StepNewlineAfterEq();
    RunAsWrittenOnLexical(Start, "A=\n");
  }

  lemma ValidateLineAEq()
    ensures ValidateGroups(TK_NEWLINE, [[SymA, Eq1, Nl1]]) == Err(Error(ER_UNEXPECTED_TOKEN, 1))
  {
    assert [SymA, Eq1, Nl1][1..] == [Eq1, Nl1];
    assert [Eq1, Nl1][1..] == [Nl1];
    assert ValidateGroup(TK_EQUAL, [Nl1]) == Err(Error(ER_UNEXPECTED_TOKEN, 1));
    assert ValidateGroup(TK_SYMBOL, [Eq1, Nl1]) == Err(Error(ER_UNEXPECTED_TOKEN, 1));
    assert ValidateGroup(TK_NEWLINE, [SymA, Eq1, Nl1]) == Err(Error(ER_UNEXPECTED_TOKEN, 1));
  }

  /**
   * `A=` followed by a line feed: as written, the three-token group reaches
   * findRecordType, which reads index 3 of it after the `=`; the corrected
   * lexer stops it with ER_UNEXPECTED_TOKEN, so no group it returns is read
   * out of bounds.
   */
  lemma ShortGroupReachesClassifier()
    ensures LexAsWritten("A=\n") == Ok([[SymA, Eq1, Nl1]])
    ensures !Assembler.InBounds([SymA, Eq1, Nl1])
    ensures Lex("A=\n") == Err(Error(ER_UNEXPECTED_TOKEN, 1))
  {
    RunLineAEq();
    ValidateLineAEq();
  }
}
