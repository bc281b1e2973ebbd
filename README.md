# Assembler front end: lexer, record classifier and intermediate records

This project models the front end of a small assembler for a fictional 8-bit CPU, as the
headers `include/tokenizer.h`, `include/assembler.h`, `include/datatypes.h` and
`include/utils.h` implement it. It also proves properties of that model.

- **Diagnostics** (`utils.dfy`, module `Utils`):
  - the error kinds;
  - the constant table of codes, messages and success flags;
  - `isSuccess`;
  - `Error::assert`. It halts the process on a failure, so it is modelled as an outcome: continue, or halt with that error.
- **Lexer** (`tokenizer.dfy`, module `Tokenizer`; properties in `tokenizer_lemmas.dfy`):
  - `tokenize`, a character state machine. Spaces and tabs are skipped without flushing the pending buffer, so `JMP START` lexes as the one symbol `JMPSTART`. Punctuation and line feeds flush the buffer. A group that holds only the line feed is dropped.
  - `appendToken`.
  - `validateString`. After `$` it wants four hex digits; after `%`, two.
  - `validateTokens`, an adjacency table keyed on the previous token kind.
  - `validateString` is a function. `appendToken`, `validateTokens` and `tokenize` are methods written as the source writes them, each proved equal to a specification function (`Append`, `ValidateGroups`, `Lex`).
- **Record classifier** (`assembler.dfy`, module `Assembler`):
  - the opcode table;
  - `findRecordType`, a positional decision on the kinds at indices 1 to 3 of a group;
  - `assemble`, which classifies every group and halts at the first group that fails. Its per-kind arms are empty.
- **Intermediate records** (`datatypes.dfy`, module `Datatypes`; properties in `datatypes_lemmas.dfy`; decimal conversion in `decimal.dfy`):
  - token and token-group equality, and `TokenGroup::clear`;
  - the text format that `Record <<`, `Record >>`, `TokenGroup >>`, `Label <<` and `Label >>` use;
  - round-trip theorems: a well-formed record, or a label of address or literal type, reads back as it was written.
- **The lexer as written** (`tokenizer_as_written.dfy`): see Findings.

The lexer's diagnostics are modelled as fatal and first-error-wins, as the assembler's `assemble` does with `Error::assert`. Streams are modelled as a string plus a cursor. `is >> c` skips white space and `is.get(c)` does not. A read that the C++ would leave undefined, or a `stoi` that would throw, yields `None`; a group cut off by the end of input keeps the tokens read so far.

## Model

| member | source | states |
|---|---|---|
| Utils.Info | include/utils.h:24-33 | every error kind has an entry in the table, so a lookup never inserts a default |
| Utils.Code | include/utils.h:24-33 | code 0 exactly for success; every failure code lies in 100..104 |
| Utils.IsSuccess | include/utils.h:40-43 | an error is a success exactly when its kind is ER_SUCCESS |
| Utils.Assert | include/utils.h:50-57 | execution continues exactly on success; otherwise it halts reporting that very error |
| Utils.CodesDistinct | include/utils.h:27-32 | no two error kinds share a code |
| Tokenizer.ValidateString | include/tokenizer.h:110-136 | address iff after `$` with 4 hex digits, literal iff after `%` with 2 hex digits, symbol iff after anything else; any other case is ER_UNRECOGNIZED_NUM at the current line |
| Tokenizer.AppendToken | include/tokenizer.h:138-151 | the group gains the validated buffer token (if the buffer is non-empty) and then the punctuation token, or the validation error is returned |
| Tokenizer.ValidateTokens | include/tokenizer.h:61-108 | the nested loop returns exactly what the group-by-group adjacency check returns, starting from the state after a line feed |
| Tokenizer.Tokenize | include/tokenizer.h:153-281 | the character loop followed by validateTokens returns exactly the lexer's specification `Lex` |
| TokenizerProperties.FirstErrorWins | include/tokenizer.h:163-280 | once a prefix of the text fails to lex, lexing the whole text fails with that same error, whatever follows |
| TokenizerProperties.LexIgnoresBlanks | include/tokenizer.h:167-169 | removing every space and tab from the text changes nothing in the result |
| TokenizerProperties.RunCountsLines | include/tokenizer.h:153-201 | the line counter ends at its start plus the number of line feeds read |
| TokenizerProperties.AppendAdds | include/tokenizer.h:138-151 | appendToken only extends the current group, keeps the line and the finished groups, and ends the group with the punctuation token |
| TokenizerProperties.LexShape | include/tokenizer.h:153-281 | every returned group is non-empty, ends with its only line feed, and has all tokens on one line in 1..(number of line feeds); group lines strictly increase (the exact line of each group is `LineGroup`'s) |
| TokenizerProperties.LineGroup | include/tokenizer.h:155-201 | after a text that ends at a line start, reading one more line and its line feed keeps the groups so far and adds exactly one group iff the line holds a non-blank character; that group's line is 1 + the number of line feeds before its closing line feed |
| TokenizerProperties.LineGroupFrom | include/tokenizer.h:165-201 | from a line start with nothing pending, one line and its line feed add one group on the current line iff the line holds a non-blank character, and otherwise leave the groups unchanged |
| TokenizerProperties.LexLineGroup | include/tokenizer.h:153-201 | the same for `tokenize`: if the text through line `l` is accepted, so is the text before `l`, and `l` adds exactly one group, on its own line, iff it holds a non-blank character |
| TokenizerProperties.RunPending | include/tokenizer.h:165-277 | within a line, a token is pending (in the buffer or the group) iff one was before or a non-blank character was read |
| TokenizerProperties.TrailingTextIgnored | include/tokenizer.h:163-280 | text after the last line feed never reaches the result: an accepted text lexes as the same text with that tail removed |
| TokenizerProperties.UnrecognizedCharFails | include/tokenizer.h:274-276 | a character outside the alphabet fails with ER_UNRECOGNIZED_CHAR at the line it is on, if the text before it lexes |
| TokenizerProperties.ValidateGroupIsChain | include/tokenizer.h:61-108 | a group passes iff each token may follow its predecessor by the adjacency table; on success it yields the last kind, and on failure the error is ER_UNEXPECTED_TOKEN at the line of the first token that may not follow its predecessor |
| TokenizerProperties.ChainAppend | include/tokenizer.h:61-108 | the adjacency condition over a concatenation splits at the seam, carrying the last kind of the first part |
| TokenizerProperties.ValidateGroupsIsChain | include/tokenizer.h:61-108 | validateTokens over all groups passes iff their concatenation obeys the adjacency table from the line-feed state; otherwise it fails with ER_UNEXPECTED_TOKEN at the line of the first token of the whole stream that may not follow its predecessor |
| TokenizerProperties.ValidateGroupFailsAt | include/tokenizer.h:67-106 | a group fails with ER_UNEXPECTED_TOKEN at the line of its first token that may not follow its predecessor |
| TokenizerProperties.ValidateGroupsFailsAt | include/tokenizer.h:65-108 | over all groups, the failure is at the line of the first offending token of the concatenated stream |
| TokenizerProperties.AcceptedGroupsStartWithSymbol | include/tokenizer.h:63-101 | in validated, well-shaped groups every group starts with a symbol and obeys the table on its own |
| TokenizerProperties.LexedGroupsAreAccepted | include/tokenizer.h:153-281 | every group tokenize returns is well-shaped, starts with a symbol and obeys the adjacency table |
| TokenizerAsWritten.RunAsWrittenOnLexical | include/tokenizer.h:163-278 | on text with no unrecognized character, the lexer as written and the corrected lexer build the same state |
| TokenizerAsWritten.UnrecognizedCharIgnored | include/tokenizer.h:274-276 | `A#` plus line feed: as written it lexes to the group `A`; corrected it fails with ER_UNRECOGNIZED_CHAR at line 1 |
| TokenizerAsWritten.UnexpectedTokenIgnored | include/tokenizer.h:69-72 | `A=B` plus line feed: as written the group is returned; corrected it fails with ER_UNEXPECTED_TOKEN at line 1 |
| TokenizerAsWritten.ShortGroupReachesClassifier | include/assembler.h:75-89 | `A=` plus line feed: as written the group [A, =, line feed] is returned although findRecordType reads its index 3; corrected it fails with ER_UNEXPECTED_TOKEN at line 1 |
| Assembler.LookupOperation | include/assembler.h:45-48 | the table knows exactly `LDA`, with opcode 0x10 and word size 3 |
| Assembler.FindRecordType | include/assembler.h:71-130 | each record kind holds iff its positional condition on the kinds at indices 1-3 holds; otherwise ER_INVALID_TOKEN_ORDER at the first token's line |
| Assembler.Reported | include/assembler.h:81-129 | findRecordType's returned error is ER_SUCCESS at line 0 on success, and the classification error otherwise |
| Assembler.Assemble | include/assembler.h:132-164 | the loop returns the first classification error in group order, or success at line 0 |
| Assembler.AssembleFirstFailure | include/assembler.h:132-164 | assemble reports success iff every group classifies; otherwise it reports ER_INVALID_TOKEN_ORDER at the line of the first group that does not |
| Assembler.ShapesClassify | include/assembler.h:75-126 | the four operand shapes (`S = $A`, `S = %L`, `M , $A`, `M , %L`) classify as their record kinds |
| Assembler.ClassifiesByKinds | include/assembler.h:75-126 | classification depends only on the kinds at indices 1-3 and the first token's line |
| Assembler.AcceptedGroupClassifies | include/assembler.h:71-130 | a well-shaped group obeying the adjacency table is indexed in bounds and always classifies |
| Assembler.LexedGroupsClassify | include/assembler.h:71-164 | on tokenize's output every index findRecordType reads exists, every group classifies, and assemble reports success |
| Decimal.ParseIntAccepts | include/datatypes.h:173 | the modelled `stoi` accepts exactly an optional minus sign followed by one or more decimal digits |
| Decimal.IntRoundTrip | include/datatypes.h:361-363 | `to_string` of any int is decimal text that `stoi` reads back as the same int |
| Datatypes.TokenEquals | include/datatypes.h:32-35 | tokens compare equal iff both kind and value agree |
| Datatypes.TokenDiffers | include/datatypes.h:36-39 | `!=` is the negation of equality |
| Datatypes.GroupEquals | include/datatypes.h:84-98 | two groups compare equal iff their token sequences are equal; the line is ignored |
| Datatypes.GroupDiffers | include/datatypes.h:100-103 | `!=` on groups holds iff the token sequences differ |
| Datatypes.Cleared | include/datatypes.h:187-191 | clear leaves no tokens and line 0 |
| Datatypes.RecordDigit | include/datatypes.h:283-306 | the kind digit lies in `0`..`6`, and the reader's switch maps it back to the same record kind |
| Datatypes.RecordText | include/datatypes.h:281-370 | a record's text starts with its kind digit, and is that digit alone exactly when the group has at most one token or starts with a line feed |
| Datatypes.PushChars | include/datatypes.h:319-322 | pushing a value's characters one by one appends the value |
| Datatypes.WriteTokens | include/datatypes.h:312-360 | the token loop produces the concatenated token texts |
| Datatypes.WriteRecord | include/datatypes.h:281-370 | `Record <<` writes exactly RecordText |
| Datatypes.SkipSpace | include/datatypes.h:129 | `>>` finds the first non-white-space character at or after the cursor, or the end |
| Datatypes.ReadLabel | include/datatypes.h:226-251 | a label read back is always a symbol and never of type OT_NONE |
| Datatypes.GetLine | include/datatypes.h:169-172 | the `get` loop yields the text up to the line feed and the cursor after it |
| Datatypes.ReadTokenGroup | include/datatypes.h:118-185 | the `TokenGroup >>` loop returns exactly the group reader's specification |
| Datatypes.ReadRecordAt | include/datatypes.h:372-412 | `Record >>` returns exactly the record reader's specification: nothing at end of input |
| Datatypes.ReadLabelAt | include/datatypes.h:226-251 | `Label >>` returns exactly the label reader's specification |
| DatatypesProperties.LineTextAt | include/datatypes.h:243-246 | `get` up to a line feed reads exactly the text before it and stops after the line feed |
| DatatypesProperties.ReadToken | include/datatypes.h:118-185 | a readable token's text is read back as that token, with the cursor moved past it |
| DatatypesProperties.ReadLineEnd | include/datatypes.h:163-176 | `/`, a decimal line and a line feed close the group with the newline token and that line |
| DatatypesProperties.ReadBody | include/datatypes.h:118-185 | a readable written body followed by its line end is read back token for token, ending right after the line feed |
| DatatypesProperties.ReadNameBar | include/datatypes.h:231-236 | the name loop returns a name free of `|` and white space, stopping after the `|` |
| DatatypesProperties.ReadWrittenRecord | include/datatypes.h:281-412 | where a well-formed record's text occurs, `Record >>` reads back that record and stops right after it |
| DatatypesProperties.RecordRoundTrip | include/datatypes.h:281-412 | reading after any prefix the text `Record <<` wrote gives the same record, whatever follows |
| DatatypesProperties.LabelTextLayout | include/datatypes.h:207-224 | `Label <<` writes one line: the name, `|`, the type digit (`0` address, `1` literal, none for OT_NONE), decimal text that reads back as the value, and a line feed |
| DatatypesProperties.ReadWrittenLabel | include/datatypes.h:207-251 | where a label's text occurs, `Label >>` reads back that label and stops right after it |
| DatatypesProperties.LabelRoundTrip | include/datatypes.h:207-251 | a symbol label of type OT_ADDRESS or OT_LITERAL with a plain name reads back as written, whatever surrounds it |

## Findings

| source | as written | input that shows it | evidently intended | confidence | as-written member | corrected member |
|---|---|---|---|---|---|---|
| include/tokenizer.h:274-276 | `utils::Error(...)` builds a temporary that is never asserted, so an unrecognized character is silently skipped | `A#` followed by a line feed lexes to the group `A` | a fatal ER_UNRECOGNIZED_CHAR at the character's line | high (not executed) | TokenizerAsWritten.UnrecognizedCharIgnored | TokenizerProperties.UnrecognizedCharFails |
| include/tokenizer.h:69-72 | the ER_UNEXPECTED_TOKEN temporary is discarded, and validateTokens returns nothing, so no adjacency violation stops tokenize | `A=B` followed by a line feed is returned as a group although a symbol may not follow `=` | a fatal ER_UNEXPECTED_TOKEN at the token's line | high (not executed) | TokenizerAsWritten.UnexpectedTokenIgnored | TokenizerProperties.ValidateGroupsIsChain |
| include/assembler.h:75-89 | findRecordType reads `tokenGroup[3]` after `=` without a bounds check; since validateTokens stops nothing, a group shorter than that reaches it | `A=` followed by a line feed gives the group [A, =, line feed], and index 3 is read out of bounds | the group is rejected by validateTokens with ER_UNEXPECTED_TOKEN before classification | high (not executed) | TokenizerAsWritten.ShortGroupReachesClassifier | Assembler.LexedGroupsClassify |

The rest of the model uses the corrected lexer (`Tokenizer.Lex`, `Tokenizer.Tokenize`).

## Left out

- `assembler::load` and the resource path: file reading is I/O.
- `printTokens` and `Error::print`: console output.
- `Error::assert` exits the process. It is modelled as an outcome `Halt(error)` that the caller returns.
- Commented-out code in `assembler.h` and `datatypes.h` is not modelled.
- The first and second passes, the symbol table, the location counter and the binary encoder do not exist in these headers. `src/main.cpp` calls `Intermediate` and `firstPass`, which are defined nowhere, so they are not part of this model.
- The `intermediate` parameter of `assemble` is never written, so it is omitted.
- The per-kind arms of `assemble` are empty, so only classification is modelled.
- The opcode table holds the single entry `LDA`, as in `include/assembler.h`. No other mnemonic is modelled, and `assemble` never consults the table.
- Assembler.FindRecordType: requires that the indices it reads exist (`InBounds`). The C++ reads them with unchecked `operator[]`, which is undefined behaviour on a short group. The corrected lexer never produces one (`Assembler.LexedGroupsClassify`); the lexer as written does (`TokenizerAsWritten.ShortGroupReachesClassifier`), and what the C++ then reads is not modelled.
- Tokenizer.ValidateString: when the hex check fails, the C++ leaves `stringType` uninitialised and still pushes a token. That undefined behaviour is modelled as a fatal ER_UNRECOGNIZED_NUM.
- The ER_UNRECOGNIZED_TOKEN default of validateTokens is unreachable: every token kind has an arm.
- `tokenizer::Token ==` compares values only and is not used by the core; it is not modelled.
- Decimal.ParseIntAccepts: `std::stoi` also accepts leading white space, a `+` sign and trailing characters, and throws on overflow. The model accepts only an optional `-` followed by digits, and any other text gives `None`.
- 32-bit `int` width is not modelled: line numbers and label values are unbounded integers.
- The stream's fail and end-of-file flags are not modelled. Input is a string with a cursor. A group cut off by the end of input is returned with the tokens read so far and line 0, as the C++ assigns them. `None` stands only for: no record digit before the end of input; a line number that is not decimal; a label without `|`, without a type character, or with a value that is not decimal.
- Datatypes.Cleared: `TokenGroup::clear` is modelled on values, returning the cleared group, rather than as an in-place update.
- DatatypesProperties.LabelRoundTrip: holds only for OT_ADDRESS and OT_LITERAL labels. For OT_NONE, `Label <<` writes no type digit and `Label >>` takes the first character of the value as the type.
- DatatypesProperties.RecordRoundTrip: holds only for well-formed groups, meaning a readable body closed by one line feed. A record whose group has at most one token, or starts with a line feed, is written as its kind digit alone, as `Datatypes.RecordText` states.
