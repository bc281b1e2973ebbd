/**
 * The record classifier of the assembler: a positional decision over the
 * kinds of the tokens at indices 1 to 3 of a line's token group, and the
 * `assemble` loop that classifies every group in order and halts at the
 * first group that cannot be classified. The arms that `assemble` runs per
 * record kind are empty, so classification is all it does.
 */
module Assembler {
  import opened Utils
  import opened Kinds
  import opened Tokenizer
  import opened TokenizerProperties

  datatype Operation = Operation(mnemonic: string, opcode: nat, wordSize: nat)

  /** The opcode table has a single entry. */
  const OpCodeTable: map<string, Operation> := map["LDA" := Operation("LDA", 0x10, 3)]

  datatype RecordType =
    | DEF_VAR_ADDRESS
    | DEF_VAR_LITERAL
    | DEF_LABEL
    | INS_ADDRESS
    | INS_LITERAL
    | INS_LABEL
    | INS_NONE

  datatype Record = Record(kind: RecordType, locationCounter: int, operation: Operation, tokenGroup: seq<Token>)

  /** The mnemonics the table knows, each with its opcode and word size. */
  function LookupOperation(mnemonic: string): (r: Option<Operation>)
    ensures r.Some? <==> mnemonic == "LDA"
    ensures r.Some? ==> r.value.mnemonic == mnemonic && r.value.opcode == 0x10 && r.value.wordSize == 3
  {
    if mnemonic in OpCodeTable then Some(OpCodeTable[mnemonic]) else None
  }

  /**
   * The indices findRecordType reads exist: index 1 always; index 3 when
   * index 1 is `=`; index 2 when index 1 is `,`, and index 3 as well when
   * index 2 is not a symbol.
   */
  predicate InBounds(g: seq<Token>) {
    && |g| >= 2
    && (g[1].kind == TK_EQUAL ==> |g| >= 4)
    && (g[1].kind == TK_COMMA ==> |g| >= 3 && (g[2].kind != TK_SYMBOL ==> |g| >= 4))
  }

  /** The kinds at indices 1 to 3, with TK_NEWLINE standing for an index that is not read. */
  function Kinds123(g: seq<Token>): seq<TokenType>
    requires InBounds(g)
  {
    [g[1].kind,
     if |g| > 2 then g[2].kind else TK_NEWLINE,
     if |g| > 3 then g[3].kind else TK_NEWLINE]
  }

  /**
   * The classification, as one decision per record kind; anything else is
   * ER_INVALID_TOKEN_ORDER at the line of the first token.
   */
  function FindRecordType(g: seq<Token>): (r: Result<RecordType>)
    requires InBounds(g)
    ensures r == Ok(DEF_VAR_ADDRESS) <==> g[1].kind == TK_EQUAL && g[3].kind == TK_ADDRESS
    ensures r == Ok(DEF_VAR_LITERAL) <==> g[1].kind == TK_EQUAL && g[3].kind == TK_LITERAL
    ensures r == Ok(DEF_LABEL) <==> g[1].kind == TK_COLON
    ensures r == Ok(INS_NONE) <==> g[1].kind == TK_NEWLINE
    ensures r == Ok(INS_LABEL) <==> g[1].kind == TK_COMMA && g[2].kind == TK_SYMBOL
    ensures r == Ok(INS_ADDRESS) <==> g[1].kind == TK_COMMA && g[2].kind != TK_SYMBOL && g[3].kind == TK_ADDRESS
    ensures r == Ok(INS_LITERAL) <==> g[1].kind == TK_COMMA && g[2].kind != TK_SYMBOL && g[3].kind == TK_LITERAL
    ensures r.Err? ==> r.error == Error(ER_INVALID_TOKEN_ORDER, g[0].line)
  {
    if g[1].kind == TK_EQUAL && g[3].kind == TK_ADDRESS then Ok(DEF_VAR_ADDRESS)
    else if g[1].kind == TK_EQUAL && g[3].kind == TK_LITERAL then Ok(DEF_VAR_LITERAL)
    else if g[1].kind == TK_COLON then Ok(DEF_LABEL)
    else if g[1].kind == TK_NEWLINE then Ok(INS_NONE)
    else if g[1].kind == TK_COMMA && g[2].kind == TK_SYMBOL then Ok(INS_LABEL)
    else if g[1].kind == TK_COMMA && g[3].kind == TK_ADDRESS then Ok(INS_ADDRESS)
    else if g[1].kind == TK_COMMA && g[3].kind == TK_LITERAL then Ok(INS_LITERAL)
    else Err(Error(ER_INVALID_TOKEN_ORDER, g[0].line))
  }

  /** The error value findRecordType returns: success carries line 0. */
  function Reported(r: Result<RecordType>): (e: Error)
    ensures r.Ok? ==> e == Error(ER_SUCCESS, 0)
    ensures r.Err? ==> e == r.error
  {
    match r
    case Ok(_) => Error(ER_SUCCESS, 0)
    case Err(e) => e
  }

  /** The groups assemble reaches (up to the first failure) can all be indexed. */
  predicate ReachableInBounds(gs: seq<seq<Token>>)
    decreases |gs|
  {
    |gs| == 0 || (InBounds(gs[0]) && (FindRecordType(gs[0]).Ok? ==> ReachableInBounds(gs[1..])))
  }

  /** What assemble returns: the error of the first group that fails, else success at line 0. */
  function AssembleResult(gs: seq<seq<Token>>): Error
    requires ReachableInBounds(gs)
    decreases |gs|
  {
    if |gs| == 0 then Error(ER_SUCCESS, 0)
    else match Assert(Reported(FindRecordType(gs[0])))
      case Halt(e) => e
      case Continue => AssembleResult(gs[1..])
  }

  method Assemble(tokens: seq<seq<Token>>) returns (status: Error)
    requires ReachableInBounds(tokens)
    ensures status == AssembleResult(tokens)
  {
    var i := 0;
    while i < |tokens|
      invariant 0 <= i <= |tokens|
      invariant ReachableInBounds(tokens[i..])
      invariant AssembleResult(tokens) == AssembleResult(tokens[i..])
    {
      var tokenGroup := tokens[i];
      var outcome := Assert(Reported(FindRecordType(tokenGroup)));
      if outcome.Halt? {
        return outcome.error;
      }
      assert tokens[i..][1..] == tokens[i + 1..];
      i := i + 1;
    }
    return Error(ER_SUCCESS, 0);
  }

  // ---------------------------------------------------------------------
  // Properties

  /** assemble succeeds exactly when every group classifies, and otherwise reports the first failure. */
  lemma {:induction false} AssembleFirstFailure(gs: seq<seq<Token>>)
    requires forall i :: 0 <= i < |gs| ==> InBounds(gs[i])
    ensures ReachableInBounds(gs)
    ensures AssembleResult(gs) == Error(ER_SUCCESS, 0) <==> forall i :: 0 <= i < |gs| ==> FindRecordType(gs[i]).Ok?
    ensures forall k :: (0 <= k < |gs| && FindRecordType(gs[k]).Err?
                         && (forall i :: 0 <= i < k ==> FindRecordType(gs[i]).Ok?)) ==>
              AssembleResult(gs) == Error(ER_INVALID_TOKEN_ORDER, gs[k][0].line)
    decreases |gs|
  {
    if gs != [] {
      var rest := gs[1..];
      assert forall i :: 0 <= i < |rest| ==> rest[i] == gs[i + 1];
      AssembleFirstFailure(rest);
      if FindRecordType(gs[0]).Ok? {
        assert (forall i :: 0 <= i < |gs| ==> FindRecordType(gs[i]).Ok?)
           <==> (forall i :: 0 <= i < |rest| ==> FindRecordType(rest[i]).Ok?) by {
          if forall i :: 0 <= i < |rest| ==> FindRecordType(rest[i]).Ok? {
            forall i | 0 <= i < |gs| ensures FindRecordType(gs[i]).Ok? {
              if i > 0 { assert gs[i] == rest[i - 1]; }
            }
          }
        }
        forall k | 0 <= k < |gs| && FindRecordType(gs[k]).Err?
            && (forall i :: 0 <= i < k ==> FindRecordType(gs[i]).Ok?)
          ensures AssembleResult(gs) == Error(ER_INVALID_TOKEN_ORDER, gs[k][0].line)
        {
          assert k > 0 && gs[k] == rest[k - 1];
          assert forall i :: 0 <= i < k - 1 ==> FindRecordType(rest[i]).Ok?;
        }
      }
    }
  }

  /** The shapes of the source grammar classify as intended, whatever follows them. */
  lemma ShapesClassify(g: seq<Token>)
    requires |g| >= 4
    ensures g[1].kind == TK_EQUAL && g[2].kind == TK_DOLLAR && g[3].kind == TK_ADDRESS
            ==> FindRecordType(g) == Ok(DEF_VAR_ADDRESS)
    ensures g[1].kind == TK_EQUAL && g[2].kind == TK_PERCENT && g[3].kind == TK_LITERAL
            ==> FindRecordType(g) == Ok(DEF_VAR_LITERAL)
    ensures g[1].kind == TK_COMMA && g[2].kind == TK_DOLLAR && g[3].kind == TK_ADDRESS
            ==> FindRecordType(g) == Ok(INS_ADDRESS)
    ensures g[1].kind == TK_COMMA && g[2].kind == TK_PERCENT && g[3].kind == TK_LITERAL
            ==> FindRecordType(g) == Ok(INS_LITERAL)
  {
  }

  /** Classification depends on the kinds at indices 1 to 3 only (and the line of the first token). */
  lemma ClassifiesByKinds(g: seq<Token>, h: seq<Token>)
    requires InBounds(g) && InBounds(h)
    requires Kinds123(g) == Kinds123(h) && g[0].line == h[0].line
    ensures FindRecordType(g) == FindRecordType(h)
  {
    assert g[1].kind == Kinds123(g)[0] == Kinds123(h)[0] == h[1].kind;
    if |g| > 2 || |h| > 2 {
      assert Kinds123(g)[1] == Kinds123(h)[1];
    }
    if |g| > 3 || |h| > 3 {
      assert Kinds123(g)[2] == Kinds123(h)[2];
    }
  }

  /** A well-shaped group that obeys the adjacency table is in bounds and classifies. */
  lemma AcceptedGroupClassifies(g: seq<Token>)
    requires WellShaped(g) && g[0].kind == TK_SYMBOL && Chain(TK_NEWLINE, g)
    ensures InBounds(g) && FindRecordType(g).Ok?
  {
    assert Follows(KindBefore(TK_NEWLINE, g, 1), g[1].kind);
    if g[1].kind != TK_NEWLINE {
      assert Follows(KindBefore(TK_NEWLINE, g, 2), g[2].kind);
      if g[2].kind != TK_NEWLINE && g[2].kind != TK_SYMBOL {
        assert Follows(KindBefore(TK_NEWLINE, g, 3), g[3].kind);
      }
    }
  }

  /**
   * Every group that tokenize returns is classified without error, with all
   * indexing in bounds, so assemble on the lexer's output reports success.
   */
  lemma LexedGroupsClassify(raw: string)
    requires Lex(raw).Ok?
    ensures var gs := Lex(raw).value;
      && (forall i :: 0 <= i < |gs| ==> InBounds(gs[i]) && FindRecordType(gs[i]).Ok?)
      && ReachableInBounds(gs) && AssembleResult(gs) == Error(ER_SUCCESS, 0)
  {
    var gs := Lex(raw).value;
    LexedGroupsAreAccepted(raw);
    forall i | 0 <= i < |gs| ensures InBounds(gs[i]) && FindRecordType(gs[i]).Ok? {
      AcceptedGroupClassifies(gs[i]);
    }
    AssembleFirstFailure(gs);
  }
}
