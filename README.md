# mallard assembler core, modelled in Dafny

mallard is a small assembler and linker for a RISC-V target.
It turns assembly text into an ELF64 executable.
This project models the assembler's core, the C files under `src/assembler/`.
Each C file becomes one Dafny module, and each module proves properties of its model.

- `Token` (`token.dfy`) models `token.c`: comparing a token span with a C string.
- `Tokens` (`tokens.dfy`) models `tokens.c`: the fixed-capacity token vector and the kind names.
- `Lexer` (`lexer.dfy`) models `lexer.c`.
  - The byte-by-byte state machine is the imperative method `Lex`.
  - `Lex` is proved equal to `Scan`/`LexSpec`, an independent reference scanner that works token by token.
  - Lemmas then say what the reference accepts and which spans it produces.
- `Parser` (`parser.dfy`) models `parser.c`.
  - The recursive-descent parser is a class with a cursor.
  - Each parse step is proved against a grammar function: `InstructionEnd` gives where one instruction ends, and `ParseAll` says whether the whole token list parses.
  - The grammar is proved equal to "a sequence of the nine instruction shapes".
- `AstNode` (`ast_node.dfy`) models `ast_node.c`.
  - It covers the node constructors, the growable instruction list, register resolution and the analysis walk.
  - A fatal analysis error is a `Fail(message)` value.
- `Instructions` (`instructions.dfy`) models `instructions.c`: U-type encoding, with a decode round trip.
- `Compile` (`compile.dfy`) models the instruction buffer of `compile.c`.
  - It covers 16- and 32-bit little-endian pushes into a 4096-byte vector, and the encoding of an instruction list.
  - The machine-code encoders are parameters.
  - Converting a counted string into a C string is also modelled.
- `StrTables` (`str_table.dfy`) models `str_table.c`.
  - The table has 1024 slots, hashed with djb2 on 64-bit unsigned arithmetic.
  - A collision is fatal: the table does no probing.
  - Lookup, size and slot-order iteration are modelled.
- `ElfTables` (`elf_tables.dfy`) models the symbol table, the string tables and the `ST_INFO` packing macros of `elf.c`.
- `ElfLayout` (`elf_layout.dfy`) holds the reference functions for the linking part of `elf_file_finalize`.
  - Explicit placement, automatic packing, the data start, the object symbols, the entry address and the file offsets are each a function.
  - Lemmas prove their properties.
- `Elf` (`elf.dfy`) holds the `ElfFile` class, which models `struct elf_file`.
  - It covers creation, setting the entry and the code start, adding functions and uninitialised data, and `Finalize`.
  - Each step of `Finalize` is a method proved against the `ElfLayout` functions.

The reference functions have no contracts of their own. The lemmas and methods named below state what each one means, and their rows are in the table.
- `Lexer.Scan` and `Lexer.LexSpec` (`lexer.c:53-140`): `ScanExtends`, the `Scan*` lemmas, `ScanTokenization`, `LexedTokensAreSpans`, and the contract of `Lex`.
- `Parser.OperandEnd`, `TailEnd`, `InstructionEnd`, `ParseFrom` and `ParseAll` (`parser.c:60-116`): `InstructionEndIsShape`, `ShapeIsInstructionEnd`, `ShapeParts`, `ParseFromIsProgramSound`, `ParseFromIsProgramComplete`, `ParseAllIsProgram`, and the contracts of the `Parser` methods.
- `AstNode.CheckRegister`, `Analyze` and `AnalyzeEach` (`ast_node.c:109-146`): `InstructionAnalysis`, `AnalyzeEachPasses`, `AnalyzeInstruction` and `AnalyzeNode`.
- `Compile.Encoded` and `CodeSize` (`compile.c:47-61`): `EncodedSize`, `CodeSizeAppend`, `CodeSplit`, `CodePrefixBound` and `InstructionsCreate`.
- `ElfLayout.AddObjectsFrom` (`elf.c:591-613`): `ObjectsSkipEmpty`, `ObjectTablesGrow`, `ObjectSymbolsAppended`, `ObjectsIgnoreRecords`, and `Elf.AddObjectSymbols`.
- `ElfLayout.EntryAddress` (`elf.c:624-635`): `EntryIsLastExplicitAddress` and `Elf.ElfFile.SetEntryPoint`.
- `ElfLayout.FileOffsets` (`elf.c:683-707`): `OffsetsAreBackToBack` and `Elf.ElfFile.LayOutHeaders`.

Errors use one convention throughout.
- Every `fatal_error`, `syntax_error` or `exit(1)` of the C code becomes an explicit failure: `Fatal(message)` in a `Result`, `Fail(message)` in an `Outcome`, or a `false` ok flag where the C code exits without a message.
- The messages are the C strings. `token_get` exits without printing anything, so `Tokens.Tokens.Get` fails with the empty message.
- A method that fails stops, and its callers stop too, as the process would.

## Model

| member | source | states |
|---|---|---|
| Token.TokenEqualsCStr | src/assembler/token.c:5-11 | true exactly when the token's bytes equal the C string's bytes before its terminator |
| Token.StrNCmpEqualIsPrefixEquality | src/assembler/token.c:10 | `strncmp(a, b, n) == 0` holds exactly when the first n bytes agree (for strings without NUL) |
| Token.EmptyCStrMatchesOnlyEmptyToken | src/assembler/token.c:6-10 | the empty C string matches a token exactly when the token is empty |
| Tokens.Tokens.constructor | src/assembler/tokens.c:7-15 | a new vector is empty, with size 0 and capacity 4·4096 bytes |
| Tokens.Tokens.Push | src/assembler/tokens.c:17-26 | pushing succeeds exactly when a 24-byte record still fits; on success the token is appended with its kind, start and span, and length and size grow; on failure nothing changes |
| Tokens.Tokens.Get | src/assembler/tokens.c:28-34 | the index is in range exactly when the result is Ok, and then the result is the token stored at that index |
| Tokens.KindName | src/assembler/tokens.c:46-69 | the name is "unknown" exactly for codes outside the five token kinds |
| Tokens.KindNamesAreDistinct | src/assembler/tokens.c:46-69 | distinct kinds have distinct names |
| Lexer.ByteClassChars | src/assembler/lexer.c:9-39 | `IsWhitespace`, `IsAlpha`, `IsDigit` and `IsHex` hold exactly for tab, newline and space; `a` to `z`; `0` to `9`; and `0` to `9` or `a` to `f` |
| Lexer.Lex | src/assembler/lexer.c:41-143 | the byte loop succeeds exactly when the reference scanner accepts the input and the tokens fit; its tokens are the reference scanner's |
| Lexer.LexByte | src/assembler/lexer.c:53-128 | one loop iteration keeps the tokens so far consistent with the reference scan, or fails only on input the reference rejects |
| Lexer.EndToken | src/assembler/lexer.c:58-79 | closing a pending identifier or number appends the span the reference scanner produces; a letter right after a number means the input is rejected |
| Lexer.StartToken | src/assembler/lexer.c:81-127 | a byte in the start state starts an identifier or number (skipping `0x`), emits punctuation, skips blanks, or rejects a foreign byte, as the reference does |
| Lexer.LexEnd | src/assembler/lexer.c:130-140 | at end of input a pending identifier or decimal number is flushed, and the result agrees with the reference in both directions |
| Lexer.PendingContinues | src/assembler/lexer.c:58-73 | a byte that continues the pending token keeps the loop state consistent |
| Lexer.RunEnd | src/assembler/lexer.c:58-73 | the end of a run lies between its start and the input end, and the byte there does not continue the run |
| Lexer.RunEndCovers | src/assembler/lexer.c:58-73 | every byte before the run end continues the run |
| Lexer.ScanExtends | src/assembler/lexer.c:53-140 | a successful scan only appends to the tokens it started with |
| Lexer.FullVectorOverflows | src/assembler/lexer.c:53-140 | a scan that starts with more than 682 tokens cannot fit the token vector |
| Lexer.ScanBlank | src/assembler/lexer.c:123-125 | a tab, newline or space produces no token |
| Lexer.ScanPunctuation | src/assembler/lexer.c:108-121 | a comma or parenthesis becomes a one-byte token of its kind |
| Lexer.ScanForeign | src/assembler/lexer.c:127 | a byte of no class at a token start rejects the input |
| Lexer.ScanIdentifierEnd | src/assembler/lexer.c:58-89 | an identifier runs over letters and digits and is emitted as that span |
| Lexer.ScanNumberEnd | src/assembler/lexer.c:67-85 | a number ended by a letter rejects the input; otherwise the number span is emitted |
| Lexer.ScanNumberAtEnd | src/assembler/lexer.c:130-140 | a number reaching the input end is emitted if decimal and dropped if hex |
| Lexer.ScanRejectsForeignByte | src/assembler/lexer.c:108-127 | any foreign byte at or after the scan position makes the scan fail |
| Lexer.ForeignByteIsFatal | src/assembler/lexer.c:108-127 | an input holding a byte that is not a lower-case letter, digit, punctuation or blank is rejected |
| Lexer.UpperCaseIsFatal | src/assembler/lexer.c:81-127 | an input holding an upper-case letter is rejected |
| Lexer.IdentifierToken | src/assembler/lexer.c:58-89 | an identifier token is a maximal letter-then-alphanumeric span of the input |
| Lexer.NumberToken | src/assembler/lexer.c:67-104 | a number token is a maximal decimal run or `0x` plus a maximal hex run |
| Lexer.ScanTokenization | src/assembler/lexer.c:53-140 | every scanned token is an identifier, number or punctuation span of the input, in increasing order and without overlap |
| Lexer.LexedTokensAreSpans | src/assembler/lexer.c:63-140 | the lexer's tokens are ordered, non-overlapping, well-formed spans of the input |
| Lexer.TrailingHexIsDropped | src/assembler/lexer.c:130-140 | the input `0x1f` lexes to no tokens at all |
| Lexer.LetterAfterNumberIsFatal | src/assembler/lexer.c:74-85 | the input `12a` is rejected |
| Parser.Parser.constructor | src/assembler/parser.c:95-98 | a new parser starts at index 0 over the given tokens |
| Parser.Parser.Accept | src/assembler/parser.c:21-30 | the result is the current token exactly when the cursor is not at the end and the kind matches; the cursor never moves |
| Parser.Parser.Next | src/assembler/parser.c:32-37 | the cursor advances by one, but never past the end |
| Parser.Parser.Expect | src/assembler/parser.c:39-58 | succeeds exactly when the current token has the kind, then returns it and advances; at the end the error is "expected KIND, got end of input" |
| Parser.Parser.Operand | src/assembler/parser.c:64-77 | succeeds exactly when the grammar admits a first operand here, and stops where the grammar says it ends |
| Parser.Parser.Tail | src/assembler/parser.c:79-91 | succeeds exactly when the optional second operand is well-formed, and stops where the grammar says it ends |
| Parser.Parser.Instruction | src/assembler/parser.c:60-92 | succeeds exactly when an instruction starts at the cursor, and then moves the cursor strictly forward to its end |
| Parser.Parse | src/assembler/parser.c:94-117 | parsing succeeds exactly when the token kinds form a program |
| Parser.ParseAllIsProgram | src/assembler/parser.c:60-117 | the token kinds parse exactly when they are a concatenation of the nine instruction shapes |
| Parser.ParseFromIsProgramSound | src/assembler/parser.c:105-116 | every accepted suffix splits into instruction shapes |
| Parser.ParseFromIsProgramComplete | src/assembler/parser.c:105-116 | every suffix made of instruction shapes is accepted |
| Parser.InstructionEndIsShape | src/assembler/parser.c:60-92 | each parsed instruction spans at least four tokens and its kinds form one of the shapes |
| Parser.ShapeIsInstructionEnd | src/assembler/parser.c:60-92 | each shape at the cursor parses to exactly its own end |
| Parser.ShapeStartsWithIdentifier | src/assembler/parser.c:60-63 | every shape starts with an identifier, which is what the top-level loop tests for |
| Parser.ShapeParts | src/assembler/parser.c:61-63 | a shape is mnemonic, register and comma, then the first operand, then the optional tail |
| AstNode.CreateItype | src/assembler/ast_node.c:47-61 | the node is tagged I-type and holds the given mnemonic, rd, rs1 and immediate |
| AstNode.CreateStype | src/assembler/ast_node.c:63-77 | the node is tagged S-type and holds the given mnemonic, rs1, rs2 and immediate |
| AstNode.CreateUtype | src/assembler/ast_node.c:79-91 | the node is tagged U-type and holds the given mnemonic, rd and immediate |
| AstNode.InstructionsAstNode.constructor | src/assembler/ast_node.c:23-33 | a new instruction list is empty |
| AstNode.InstructionsAstNode.Push | src/assembler/ast_node.c:35-45 | the node is placed at the old length, the length grows by one, and earlier children are kept |
| AstNode.InstructionsAstNode.Value | src/assembler/ast_node.c:29 | the list as a node carries the instructions tag |
| AstNode.RegisterIndex | src/assembler/ast_node.c:93-107 | resolution succeeds exactly for `a0` and `a1`, giving 10 and 11; anything else fails with "unknown register" |
| AstNode.RegisterNameRoundTrip | src/assembler/ast_node.c:93-107 | resolving a register's own name gives back its index |
| AstNode.AnalyzeEachPasses | src/assembler/ast_node.c:126-133 | a list passes exactly when every child passes, and a failure is the first failing child's failure |
| AstNode.InstructionAnalysis | src/assembler/ast_node.c:109-121 | an I/S/U node passes exactly when each register operand it names resolves; otherwise it fails with "unknown register" |
| AstNode.AnalyzeInstruction | src/assembler/ast_node.c:109-121 | the checks performed for an instruction node give the analysis outcome |
| AstNode.AnalyzeNode | src/assembler/ast_node.c:123-146 | the recursive walk, with its loop over the children, gives the analysis outcome |
| Instructions.UtypeInstruction | src/assembler/instructions.c:5-26 | the opcode, rd and immediate can be read back from bits 0-6, 7-11 and 12-31 of the word |
| Instructions.DecodeEncode | src/assembler/instructions.c:5-26 | decoding an encoded U-type gives back its fields |
| Instructions.EncodeDecode | src/assembler/instructions.c:5-26 | encoding the decoded fields of a well-formed word gives back the word |
| Instructions.LuiA1Example | src/assembler/tests/qemu-entry.c:11-21 | `lui a1, 0x100` encodes to the word 0x001005B7, which `Compile.Le32` stores as B7 05 10 00 |
| Compile.Le16 | src/assembler/compile.c:29-36 | two bytes whose little-endian value is the given half-word |
| Compile.Le32 | src/assembler/compile.c:38-45 | four bytes whose little-endian value is the given word |
| Compile.InstructionBuffer.constructor | src/assembler/compile.c:14-27 | a new buffer is empty, with capacity 4096 |
| Compile.InstructionBuffer.PushU16 | src/assembler/compile.c:29-36 | succeeds exactly when two more bytes fit; then the buffer gains the value's little-endian bytes; otherwise nothing changes |
| Compile.InstructionBuffer.PushU32 | src/assembler/compile.c:38-45 | succeeds exactly when four more bytes fit; then the buffer gains the value's little-endian bytes; otherwise nothing changes |
| Compile.InstructionsCreate | src/assembler/compile.c:47-61 | succeeds exactly when the encoded size fits 4096 bytes; then the buffer holds each node's 2- or 4-byte encoding in order |
| Compile.CodeSizeAppend | src/assembler/compile.c:49-58 | one more node adds 2 bytes if compressible and 4 otherwise |
| Compile.EncodedSize | src/assembler/compile.c:47-61 | the encoded bytes are exactly the computed code size long |
| Compile.CodePrefixBound | src/assembler/compile.c:47-61 | a prefix of the nodes never needs more room than all of them |
| Compile.CodeSplit | src/assembler/compile.c:47-61 | the code size of a list is the sum over any split of it |
| Compile.QemuEntryBytes | src/assembler/tests/qemu-entry.c:8-25 | the four-instruction test program, compressed-first-and-last, encodes to the expected twelve bytes |
| Compile.Strlen | src/assembler/compile.c:69-76 | the length is the index of the first NUL |
| Compile.StrToCStr | src/assembler/compile.c:69-76 | the C string is the bytes followed by one NUL |
| Compile.StrToCStrRoundTrip | src/assembler/compile.c:69-76 | for NUL-free bytes, `strlen` of the C string is the length and its prefix is the original bytes |
| StrTables.Djb2 | src/assembler/str_table.c:34-41 | the hash is below 2^64 |
| StrTables.Djb2IsPolynomialMod | src/assembler/str_table.c:34-41 | the wrapping 64-bit hash equals the exact djb2 polynomial reduced mod 2^64 |
| StrTables.Hash | src/assembler/str_table.c:34-41 | the loop computes the djb2 hash of the key |
| StrTables.SlotOf | src/assembler/str_table.c:46 | the slot is a valid index into the 1024 slots |
| StrTables.SlotOfUnbounded | src/assembler/str_table.c:34-46 | the slot is the exact polynomial mod 1024, since 1024 divides 2^64 |
| StrTables.Lookup | src/assembler/str_table.c:63-80 | finds the entry in the key's slot exactly when that entry holds the same key bytes, and nothing otherwise |
| StrTables.LookupAfterStore | src/assembler/str_table.c:43-80 | after storing a key it is found with its value, and keys in other slots are unaffected |
| StrTables.OccupiedFrom | src/assembler/str_table.c:82-108 | the iteration visits only occupied slots at or after the start |
| StrTables.OccupiedFromIsSortedAndComplete | src/assembler/str_table.c:82-108 | the iteration visits slots in increasing order and misses no occupied slot |
| StrTables.OccupiedFromIsSorted | src/assembler/str_table.c:93-108 | the visited slots strictly increase |
| StrTables.OccupiedFromIsComplete | src/assembler/str_table.c:82-108 | every occupied slot at or after the start is visited |
| StrTables.OccupiedFromCount | src/assembler/str_table.c:56-108 | the iteration visits as many slots as are occupied |
| StrTables.SkippedSlotsAreEmpty | src/assembler/str_table.c:85-106 | slots skipped before the next visited one are empty |
| StrTables.IterationStep | src/assembler/str_table.c:93-108 | from an occupied slot, iteration yields it and then continues after it |
| StrTables.StrTable.constructor | src/assembler/str_table.c:16-32 | a new table has 1024 empty slots and no entries |
| StrTables.StrTable.Insert | src/assembler/str_table.c:43-57 | succeeds exactly when the key's slot is empty, then stores the entry there and counts it; a collision, even a duplicate key, changes nothing and fails |
| StrTables.StrTable.Size | src/assembler/str_table.c:59-61 | the entry count equals the number of occupied slots |
| StrTables.StrTable.Get | src/assembler/str_table.c:63-80 | finds an entry exactly when the key's slot holds that key |
| StrTables.StrTable.Scan | src/assembler/str_table.c:85-107 | the scan finds the first occupied slot from a position, if any |
| StrTables.StrTable.Iterator | src/assembler/str_table.c:82-91 | the first iteration position is the first occupied slot |
| StrTables.StrTable.IteratorNext | src/assembler/str_table.c:93-108 | the next iteration position is the next occupied slot after the current one |
| StrTables.StrTable.SetValue | src/assembler/elf.c:549-572 | an update through an entry pointer replaces that slot's value and keeps its key |
| ElfTables.StInfoRoundTrip | src/assembler/elf.c:75-77 | `ST_BIND` and `ST_TYPE` recover the binding and type that `ST_INFO` packed |
| ElfTables.SymbolTable.constructor | src/assembler/elf.c:223-233 | a new symbol table is empty, with capacity 4096 |
| ElfTables.SymbolTable.Next | src/assembler/elf.c:235-244 | succeeds exactly when another 24-byte symbol fits; then it returns the new symbol's index and the table gains a zeroed symbol |
| ElfTables.SymbolTable.Write | src/assembler/elf.c:352-357 | writing through a symbol pointer replaces that symbol and keeps the rest |
| ElfTables.NameAt | src/assembler/elf.c:259-279 | the name at an offset is the NUL-free bytes up to the next NUL |
| ElfTables.NameAtAppended | src/assembler/elf.c:270-279 | a name appended to a string table is read back at its offset |
| ElfTables.StringTable.constructor | src/assembler/elf.c:246-257 | a new string table holds the single NUL at index 0 |
| ElfTables.StringTable.AddCStr | src/assembler/elf.c:259-268 | succeeds exactly when the string and its NUL fit; then it returns the old size and appends them |
| ElfTables.StringTable.AddStr | src/assembler/elf.c:270-279 | succeeds exactly when the bytes and a NUL fit; then it returns the old size and appends them |
| ElfLayout.WithAddress | src/assembler/elf.c:549-551 | setting a function's address changes only that entry's address |
| ElfLayout.LookupSameShape | src/assembler/elf.c:540-551 | tables differing only in addresses find the same functions with the same code |
| ElfLayout.PlaceExplicitFrom | src/assembler/elf.c:540-562 | a successful explicit placement keeps the table's size |
| ElfLayout.ExplicitStep | src/assembler/elf.c:541-561 | one address tuple sets the function's address and raises the code size to cover it |
| ElfLayout.ExplicitKeepsShape | src/assembler/elf.c:540-562 | explicit placement changes only addresses and never shrinks the code size |
| ElfLayout.UnknownFunctionIsFatal | src/assembler/elf.c:543-546 | a tuple naming an unknown function makes placement fatal |
| ElfLayout.ExplicitCodeSize | src/assembler/elf.c:553-561 | after explicit placement every named function ends after the code start and inside the code size, and the code size is the old size or one function's end |
| ElfLayout.LookupWithAddress | src/assembler/elf.c:549-551 | after setting an address, that function has it and other lookups are unchanged |
| ElfLayout.ExplicitAddresses | src/assembler/elf.c:540-562 | each function gets the address of the last tuple naming it, and unnamed functions are untouched |
| ElfLayout.ExplicitKeepsUnnamed | src/assembler/elf.c:540-562 | a function named by no tuple is untouched |
| ElfLayout.ExplicitLastAddress | src/assembler/elf.c:540-562 | the last tuple naming a function decides its address |
| ElfLayout.PlaceExplicit | src/assembler/elf.c:540-562 | explicit placement over all tuples keeps the table's size |
| ElfLayout.PlaceAutoFrom | src/assembler/elf.c:564-578 | automatic placement from a slot keeps the table's size |
| ElfLayout.PlaceSlot | src/assembler/elf.c:566-577 | placing one slot then continuing is the same as continuing from that slot |
| ElfLayout.PlaceAuto | src/assembler/elf.c:564-578 | automatic placement keeps the table's size |
| ElfLayout.AutoSkipsEmpty | src/assembler/elf.c:564-578 | empty slots do not affect automatic placement |
| ElfLayout.AutoKeepsPlaced | src/assembler/elf.c:564-578 | placed functions are untouched, and the code size grows by the total size of the unplaced ones |
| ElfLayout.UnplacedSizeSame | src/assembler/elf.c:569-574 | the unplaced size depends only on the slots it covers |
| ElfLayout.AutoPlacesInOrder | src/assembler/elf.c:564-578 | unplaced functions are packed after the old code end and within the new code size, in slot order, without overlap |
| ElfLayout.AutoPlacesAll | src/assembler/elf.c:564-578 | with a non-zero code start every function has an address afterwards |
| ElfLayout.DataStart | src/assembler/elf.c:582-588 | the data start is page-aligned, at or above the code end, less than a page beyond it, and the code end itself when already aligned |
| ElfLayout.DataStartIsLeast | src/assembler/elf.c:582-588 | the data start is the least page boundary at or above the code end |
| ElfLayout.ObjectsSkipEmpty | src/assembler/elf.c:592-613 | empty object slots add no symbols |
| ElfLayout.ObjectTablesGrow | src/assembler/elf.c:592-613 | adding objects appends one symbol per occupied slot and only appends to both tables |
| ElfLayout.ObjectSymbolsAppended | src/assembler/elf.c:592-613 | the k-th new symbol is the k-th object in slot order: local OBJECT in `.bss`, valued at bss start plus its offset, sized by it, named by its appended name |
| ElfLayout.NewObjectRecord | src/assembler/elf.c:602-609 | an appended object symbol and name form that object's record |
| ElfLayout.EntryIsLastExplicitAddress | src/assembler/elf.c:624-635 | an entry function placed explicitly at a non-zero address gets that address as the entry point |
| ElfLayout.OffsetsAreBackToBack | src/assembler/elf.c:683-707 | the header, program headers, code, symtab, strtab, shstrtab and section headers follow each other without gaps; `.data` and `.bss` take no file space |
| Elf.LaidOut | src/assembler/elf.c:644-707 | laying out the sections keeps the null header and each header's name, kind, flags and link |
| Elf.ElfFile.constructor | src/assembler/elf.c:294-450 | a new ELF file has the four section symbols, the three section names in strtab, the six names in shstrtab, the initial section headers, and empty tables |
| Elf.NewSymbolTables | src/assembler/elf.c:337-391 | the symbol table holds the null, `.text`, `.data` and `.bss` local symbols, and the strtab their names |
| Elf.NewSectionNames | src/assembler/elf.c:343-447 | shstrtab holds the six section names and each section header names its own |
| Elf.AddSectionSymbols | src/assembler/elf.c:352-391 | the four section symbols and their names are added in order |
| Elf.AddNullAndTextSymbols | src/assembler/elf.c:352-365 | the null and `.text` symbols come first |
| Elf.AddSectionSymbol | src/assembler/elf.c:377-391 | one section symbol is appended with its appended name |
| Elf.AddSectionNames | src/assembler/elf.c:367-447 | all six section headers are named and initialised |
| Elf.AddLoadedSectionNames | src/assembler/elf.c:367-411 | `.text`, `.data` and `.bss` are named and initialised |
| Elf.AddTableSectionNames | src/assembler/elf.c:413-447 | `.symtab`, `.strtab` and `.shstrtab` are named and initialised |
| Elf.AddSectionName | src/assembler/elf.c:367-447 | one section gets its appended name and its initial fields |
| Elf.ElfFile.SetEntry | src/assembler/elf.c:452-455 | records the entry name and marks it set |
| Elf.ElfFile.SetCodeStart | src/assembler/elf.c:457-471 | a second call fails with "code program header already set"; the first sets the code start and a loadable R+X page-aligned code program header at it |
| Elf.ElfFile.SetAddresses | src/assembler/elf.c:473-478 | records the address tuples |
| Elf.ElfFile.AddFunction | src/assembler/elf.c:480-500 | succeeds exactly when the symbol, the name and the table slot are all free, failing with the C message otherwise; appends a local FUNC symbol and the name, and stores an unplaced entry |
| Elf.AddFunctionSymbol | src/assembler/elf.c:485-491 | appends a local FUNC symbol sized by the code and its name, failing as `symtab_next` and `strtab_add_from_str` do |
| Elf.ElfFile.AddUninitializedData | src/assembler/elf.c:519-528 | the object gets the current bss size as its offset, the bss grows by its size, and it is stored unless its slot is taken |
| Elf.ElfFile.ReserveBss | src/assembler/elf.c:523-524 | returns the old bss size and grows it |
| Elf.AddObject | src/assembler/elf.c:525-527 | stores the object unless its slot is taken, and keeps all objects inside the bss |
| Elf.ElfFile.Finalize | src/assembler/elf.c:530-724 | fails with "elf file code start not set", then "elf file entry address not set"; otherwise fails exactly when explicit placement, the object loop, the entry lookup or the final check fails, with the first failure's message; on success: the functions and code size are those of explicit then automatic placement; the data starts at the page-rounded code end, with `.bss` after it; the header entry is the entry function's address; the header counts and offsets and both program headers are laid out; the strings and symbols are those of the object loop, with the section and function symbols valued; the section headers are the laid-out ones; nothing else changes |
| Elf.ElfFile.Build | src/assembler/elf.c:538-724 | the same outcome and final state as `Finalize`, once both flags are set |
| Elf.ElfFile.Place | src/assembler/elf.c:538-589 | fails with the explicit placement's message, or the functions and code size become those of explicit then automatic placement and the data and `.bss` starts follow the code end |
| Elf.ElfFile.Finish | src/assembler/elf.c:591-724 | from placed code: fails exactly when the object loop, the entry lookup or the final check fails, with the first message; on success the final state, tables and section headers are as for `Finalize` |
| Elf.ElfFile.PlaceCode | src/assembler/elf.c:540-578 | the function table and code size become those of explicit then automatic placement, or it fails with the explicit placement's message |
| Elf.ElfFile.SetCodeSize | src/assembler/elf.c:559-574 | records the new code size |
| Elf.ElfFile.PlaceData | src/assembler/elf.c:582-589 | the data start is the page-rounded code end and bss follows the data |
| Elf.ElfFile.AddObjects | src/assembler/elf.c:591-613 | the symbol and string tables become those the object reference gives, one symbol per object, or it fails with that message |
| Elf.ElfFile.Publish | src/assembler/elf.c:591-724 | fails exactly when the object loop, the entry lookup or the final check fails, with the first message; only the headers change among the scalar fields; on success the header and both program headers are laid out, the tables are the object loop's with section values set, and the section headers are laid out |
| Elf.ElfFile.Complete | src/assembler/elf.c:615-724 | fails exactly when the entry lookup or the final check fails, with the first message; on success the header and program headers are laid out, only the section symbols' values change, and the section headers are laid out |
| Elf.ElfFile.Conclude | src/assembler/elf.c:644-723 | passes exactly when every function has an address; the section headers are laid out and only the section symbols' values change |
| Elf.ElfFile.SetHeaders | src/assembler/elf.c:615-707 | succeeds exactly when the entry lookup does, failing with its message; on success the header's entry is the entry function's address, its counts and offsets and both program headers are laid out, and nothing else changes |
| Elf.ElfFile.SetDataProgramHeader | src/assembler/elf.c:615-622 | the data program header is loadable, R+W, at the data start, sized by data and data plus bss, page-aligned |
| Elf.ElfFile.SetEntryPoint | src/assembler/elf.c:624-635 | succeeds exactly when the entry function exists and is placed, and then the header entry is its address |
| Elf.ResolveEntry | src/assembler/elf.c:624-635 | returns the entry function's non-zero address, or fails as the reference says |
| Elf.ElfFile.LayOutHeaders | src/assembler/elf.c:637-707 | the header counts and offsets and the program header sizes and offsets are set to the back-to-back layout |
| Elf.ElfFile.LayOutSections | src/assembler/elf.c:644-707 | each section header gets its address, size and offset, symtab's info counts all symbols, and the section symbols get their addresses |
| Elf.ElfFile.LayOutSectionHeaders | src/assembler/elf.c:644-707 | each section header gets its address, size and offset, and symtab's info counts all symbols |
| Elf.ElfFile.LayOutSectionSymbols | src/assembler/elf.c:650-665 | the `.text`, `.data` and `.bss` symbols get the code, data and bss starts |
| Elf.FillSectionHeaders | src/assembler/elf.c:644-707 | the section headers become the laid-out ones |
| Elf.SymtabInfo | src/assembler/elf.c:672-673 | symtab's info is 4 plus the numbers of functions and objects |
| Elf.SetSectionValues | src/assembler/elf.c:650-665 | only the three section symbols' values change |
| Elf.PlaceAt | src/assembler/elf.c:549-572 | a function's entry and its symbol both get the address |
| Elf.PlaceExplicitly | src/assembler/elf.c:540-562 | the explicit-placement loop yields the reference's table and code size, or its failure |
| Elf.PlaceTuple | src/assembler/elf.c:541-561 | one tuple advances the reference by one step, or fails as it does |
| Elf.PlaceFunctions | src/assembler/elf.c:540-578 | explicit and automatic placement together match the reference |
| Elf.PlaceAutomatically | src/assembler/elf.c:564-578 | the automatic-placement loop yields the reference's table and code size |
| Elf.AutoStep | src/assembler/elf.c:566-577 | one iteration advances the reference to the next occupied slot |
| Elf.PlaceIfUnplaced | src/assembler/elf.c:569-575 | an unplaced function is put at the code end, and the code grows by its size |
| Elf.CheckPlaced | src/assembler/elf.c:709-715 | passes exactly when every function has an address, failing with "function address not set" |
| Elf.PlacedBelowFirst | src/assembler/elf.c:710-723 | the final check's iteration has seen every slot before the next occupied one |
| Elf.AddObjectSymbols | src/assembler/elf.c:592-613 | the object loop yields the reference's tables, or its failure |
| Elf.ObjectStep | src/assembler/elf.c:594-612 | one iteration advances the reference to the next occupied slot |
| Elf.AddObjectSymbol | src/assembler/elf.c:601-609 | appends the object's local OBJECT symbol in `.bss` and its name, or fails when either table is full |
| Elf.LocalInfos | src/assembler/elf.c:75-79 | every symbol the file creates is bound locally |
| Elf.EmptyTablesAgree | src/assembler/elf.c:311-312 | empty tables trivially agree with any symbol table |
| Elf.AllLocalAppended | src/assembler/elf.c:485-491 | appending a local symbol keeps all symbols local |
| Elf.NamesAreCStrings | src/assembler/elf.c:259-268 | a NUL-terminated name has its own length as `strlen` |
| Elf.AgreeAfterAdding | src/assembler/elf.c:485-499 | a new function entry and its new symbol keep the tables in agreement |
| Elf.ObjectsInBssAfterAdding | src/assembler/elf.c:523-527 | a new object at the old bss size keeps all objects inside the bss |
| Elf.AgreeAfterPlacing | src/assembler/elf.c:549-572 | setting an entry's address and its symbol's value together keeps the tables in agreement |
| Elf.AllLocalSetValue | src/assembler/elf.c:551-572 | changing a symbol's value keeps all symbols local |
| Elf.AgreeAfterAppending | src/assembler/elf.c:602-609 | appending symbols keeps function entries in agreement |
| Elf.ObjectsAppended | src/assembler/elf.c:591-613 | adding objects appends one symbol per object, in slot order, each its object's record |
| Elf.AgreeAfterSectionValue | src/assembler/elf.c:650-665 | changing a section symbol's value keeps the function entries in agreement |
| Elf.SectionValuesKeep | src/assembler/elf.c:650-665 | setting the section symbols' values keeps agreement and locality |
| Elf.FinalSymbols | src/assembler/elf.c:550-665 | the object loop run before or after the functions' values are set gives the same strings and new symbols; the final symbols differ from the starting ones only in the section and function values |
| Elf.ElfFile.TablesFromObjects | src/assembler/elf.c:550-665 | the tables after the object loop and the section layout are those `FinalizedFrom` describes from the symbols before placement |
| Elf.ElfFile.StateFromShift | src/assembler/elf.c:580-589 | the final state stated against the state after placement also holds against the state before it |
| Elf.ValuesFromTrans | src/assembler/elf.c:549-572 | changing only values past the section records, twice, changes only those values |
| ElfLayout.ObjectsIgnoreRecords | src/assembler/elf.c:591-613 | the object loop does not depend on the existing symbols' contents: the outcome, the strings and the new symbols depend only on how many symbols there are |

## Left out

- `file.c`, `main.c`, `fatal_error.c` and the colour printing: I/O, argument handling and process exit are not part of this model. A fatal error is the failure value described above.
- Allocation failure (`malloc`/`calloc`/`realloc` returning NULL) is not modelled: Dafny allocation does not fail.
- `token_print` and the token dump in `parse` (`parser.c:100-103`) only print, so they are left out.
- `compile` (`compile.c:78-124`), `compile_instructions` (`compile.c:63-67`) and `parse_instructions` are not part of this model. They read files, walk the whole program tree and call into code whose source is not part of this model.
- `elf_write` (`elf.c:726-805`) writes the finished image to a file descriptor, so it is I/O and not modelled. The offsets it uses are modelled by `ElfLayout.FileOffsets`.
- The machine-code encoders (`ast_node_machine_code_is_compressible`, `_u16`, `_u32`) are not part of this model. `Compile.InstructionsCreate` takes them as function parameters.
- Compile.QemuEntryBytes therefore assumes the four encodings the end-to-end test expects, rather than deriving them.
- `instructions_recreate` and `instructions_need_function_table` (`elf.c:502-517, 716-720`) re-encode jumps once addresses are known. They depend on UJ-type nodes and encoders that are not part of this model, so the jump fix-up step of finalize is not modelled.
- `is_uninitialized_data_ast_node` (`elf.c:597`) is not part of this model. Every object-table entry is taken to be an uninitialised-data node, which is how `elf_add_uninitialized_data` fills the table.
- Integer widths.
  - Addresses, sizes and offsets are unbounded naturals, so `uint64_t` wrap-around of `address + size` or `code_start + code_size` and the `uint32_t` truncation of string-table offsets are not modelled.
  - Both tables have a capacity of 4096, which makes the truncation unreachable there.
  - Only the djb2 hash wraps explicitly, modulo 2^64.
- Pointers become values.
  - A token keeps its start offset and its bytes instead of a pointer into the input.
  - A table entry is a value in its slot. Writes through `struct str_table_entry*` and `struct elf_symbol*` are modelled as replacing the slot or the symbol (`StrTables.StrTable.SetValue`, `ElfTables.SymbolTable.Write`), because each is reached only through that slot or symbol.
  - `elf_file_set_entry` keeps the entry token's bytes rather than the token pointer.
- Parser.Parser.Operand, Parser.Parser.Tail: the model does not keep the tokens that `expect` returns, because `instruction` discards them. Only acceptance and the cursor are modelled.
- Elf.ElfFile.Finalize: the steps run in the C order, except that `LayOutHeaders` sets the program-header sizes and the header and program-header offsets together after the entry point, and `LayOutSections` sets the section headers and section symbols after them. These writes touch disjoint fields and cannot fail, so the outcome and the final state are the same.
- Elf.ElfFile.Finalize: `AllPlaced` after success comes from the final check. `ElfLayout.AutoPlacesAll` proves that the check always passes when the code start is non-zero. With code start 0 and empty code, the first packed function lands at 0. The entry check runs before the final check (elf.c:624-635, then elf.c:709-715), so finalize fails with "entry function address not set" when that function is the entry function, and with "function address not set" otherwise, as the C code does.
- Lexer.Lex: a full token vector and a lexical error are both the `false` result. The C code exits with status 1 in both cases, and prints "parsed failed" only for the latter.
- Tokens.Tokens.Push and `Compile.InstructionBuffer.PushU16`/`PushU32` fail without a message, as `exit(1)` does.
- ElfTables.StringTable.AddStr copies only the name's bytes and counts one more, as the C code does. The terminating NUL is the zero byte already past the old size: `StringTable.Valid` keeps every byte past the size zero, as the zero-filled `calloc` buffer is.

## Behaviour of the code worth knowing

- Registers: `register_index` (`ast_node.c:93-107`) knows only `a0` and `a1`, not the other RISC-V ABI register names.
- The lexer and the parser are in `src/assembler` and are modelled here.
- Lexer rules.
  - The lexer accepts multi-digit decimal numbers.
  - It drops a hex number that ends the input (`Lexer.TrailingHexIsDropped`).
  - It has no string literals.
  - Upper-case letters are rejected.
- Explicit addresses: `elf_file_finalize` uses them in the order given, without sorting; the last tuple naming a function decides its address (`ElfLayout.ExplicitLastAddress`). Sorting, if any, happens before `elf_file_set_addresses` and is not part of this model.
- Collisions: the function and object tables are fatal on any slot collision, including two different names that hash to the same slot.
- Object offsets: `elf_add_uninitialized_data` assigns each object its `.bss` offset, in call order; finalize only adds the symbols.
- Jump fix-ups happen inside `instructions_recreate`, which is not part of this model.
- The `.bss` section header's address is the data start (`elf.c:662`). Since the data size is always 0, that equals the bss start.

