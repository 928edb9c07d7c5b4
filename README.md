# v-compiler core, modelled in Dafny

v-compiler turns a small C-like language into x86-64 NASM assembly. This project models
its pipeline from source text to the assembly listing:

- **Tokenizer** (`tokenizer.dfy`, `tokens.dfy`). The scanner object of
  `tokenizer/tokenizer.c` is a class. It has a cursor, a fixed 256-byte word buffer with
  its NUL terminator, and a token list that it builds.
  - `Lex` is a specification of the scanner over positions of the text.
  - `Scanner.Tokenize` is proved to return exactly `Lex`.
- **Parser** (`parser.dfy`, `ast.dfy`). The parser object of `parser/parser.c` is a
  class over the token list and a cursor.
  - `PeekAt`, `ExprAt`, `StmtAt` and `ProgFrom` say what each routine computes.
  - Each method is proved to agree with its function.
  - The `exit`/`let` statement forms come with a parse-after-print round trip.
- **Binary-expression builder** (`binstmt.dfy`, `precedence.dfy`).
  - `parse_bin_stmt_rec` of `parser/binstmt/binstmt.c` is a recursive function over the
    token window, plus methods that keep the scanning loops of the C code.
  - Every tree it builds has the `+ - * /` precedence shape.
  - Over a well-formed window, the tree's in-order tokens are the window itself.
  - A finding about the right-hand scan is recorded below.
- **Code generator** (`generation.dfy`, `helper.dfy`, with `asm.dfy`, `slots.dfy`,
  `lowering.dfy`):
  - `gen_data` is a class whose output is a sequence of emitted lines.
  - The variable-slot passes are functions on a name → slot map, where slot -1 means
    "unassigned".
  - The code each `gen_*` routine emits is the function `ExprCode`/`StmtCode`/`ProgramCode`
    over an instruction datatype rendered to the NASM text of the source.
  - `helper/helper.c`'s variants (its `for` handling, its scope deletion) are modelled
    where they differ.
- **Meaning of the generated code** (`machine.dfy`, `semantics.dfy`, `correctness.dfy`).
  - An abstract machine runs the instruction list: rax, rbx, al, rdi, flags, the stack,
    `rbp`-relative frame cells, forward jumps, and the exit system call.
  - A reference semantics gives each expression its value and each statement list its
    outcome. It follows the C operators: `/` truncates, comparisons give 0/1, and
    `&&`/`||` short-circuit.
  - `ProgramRuns` proves that a compiled program exits with the status the reference
    semantics gives it, or with 0 when it falls off the end.

The language's written description promises a precedence-climbing expression parser with
parenthesised primaries, typed declarations, loops and functions. The code does something
narrower, and the model follows the code:
- `parse_expr` reads a single literal or identifier;
- expressions with operators are built by the window-based `parse_bin_stmt_rec`;
- statements are `exit`, `let`, `if` and a free-standing `else`;
- the generator lowers `let`, `exit`, `if` and `else`, and emits a comment for every
  other statement kind.

## Model

| member | source | states |
|---|---|---|
| Tokenizer.CString | tokenizer/tokenizer.c:11-18 | The scanner's text is the source up to its first NUL: a prefix of the input that contains no NUL and is followed by NUL or by the end. |
| Tokenizer.CStringOfPlain | tokenizer/tokenizer.c:11-18 | A source without NUL is scanned whole. |
| Tokenizer.Clip | tokenizer/tokenizer.c:31-36 | The word buffer keeps the first min(length, BUF_SIZE-1) characters of a word and drops the rest. |
| Tokenizer.ClipSnoc | tokenizer/tokenizer.c:31-36 | Pushing one more character appends it while there is room and changes nothing once the buffer is full. |
| Tokenizer.RunAtAll | tokenizer/tokenizer.c:73-75 | Every character in the run a word (or number) loop consumes is alphanumeric (or a digit). |
| Tokenizer.ScanAt | tokenizer/tokenizer.c:104-155 | One symbol step consumes at least one character, stays inside the text and emits at most one token. |
| Tokenizer.Scanner.constructor | tokenizer/tokenizer.c:11-18 | A new scanner is at index 0 over the NUL-free prefix of the source, with an empty, NUL-terminated buffer. |
| Tokenizer.Scanner.Peek | tokenizer/tokenizer.c:20-24 | Returns the character at index+offset inside the text, and INVALID_CHAR (0xFF) anywhere else. |
| Tokenizer.Scanner.Consume | tokenizer/tokenizer.c:26-29 | Returns the character at the cursor and advances by one. At the end of the text it returns INVALID_CHAR and does not move. |
| Tokenizer.Scanner.PushBack | tokenizer/tokenizer.c:31-36 | Appends the character and keeps the terminator while len < BUF_SIZE-1. Otherwise the buffer is unchanged. |
| Tokenizer.Scanner.PushTokenValue | tokenizer/tokenizer.c:40-50 | An empty buffer adds no token. Otherwise it appends one token of the kind, carrying a copy of the buffer text. The buffer is emptied either way. |
| Tokenizer.Scanner.PushToken | tokenizer/tokenizer.c:52-60 | Appends one token of the kind with no text and empties the buffer. |
| Tokenizer.Scanner.ReadRun | tokenizer/tokenizer.c:72-75 | Consumes the maximal alphanumeric (digit) run. The buffer then holds its clipped text, which has no NUL. |
| Tokenizer.Scanner.TakeChar | tokenizer/tokenizer.c:74 | One `push_back(consume())` step keeps the buffer equal to the clipped text read so far. |
| Tokenizer.Scanner.ReadWord | tokenizer/tokenizer.c:70-94 | Consumes the maximal word, appends its keyword token or an identifier carrying the clipped word, and continues exactly as `Lex` does from the new position. |
| Tokenizer.Scanner.ReadNumber | tokenizer/tokenizer.c:96-102 | Consumes the maximal digit run, appends an integer literal carrying the clipped digits, and continues as `Lex` does. |
| Tokenizer.Scanner.ReadSymbol | tokenizer/tokenizer.c:104-155 | Agrees with `ScanAt` on every symbol: the one- and two-character operators, the character literal, skipped characters, and the error on `!` without `=`. |
| Tokenizer.Scanner.ScanToken | tokenizer/tokenizer.c:69-156 | One turn of the scanning loop is one step of `Lex`, and a failure is `Lex`'s failure. |
| Tokenizer.Scanner.Tokenize | tokenizer/tokenizer.c:64-160 | The token list is exactly `Lex` of the text from the cursor, or its error. |
| Tokenizer.LexWordAt | tokenizer/tokenizer.c:70-94 | At a letter, `Lex` emits the word's token and continues after the maximal word. |
| Tokenizer.LexNumberAt | tokenizer/tokenizer.c:96-102 | At a digit, `Lex` emits the literal and continues after the maximal digit run. |
| Tokenizer.LexSymbolAt | tokenizer/tokenizer.c:104-155 | At any other character, `Lex` fails exactly when the symbol step fails, and otherwise continues after what the step consumed. |
| Tokenizer.KeywordKinds | tokenizer/tokenizer.c:76-91 | Every keyword the table recognises is one of exit, if, else, for, while, int and char, so no word ever becomes the `let`, `short` or `long` keyword. Only "exit" gives the exit keyword and only "int" gives int. |
| Tokenizer.WordTokenScanned | tokenizer/tokenizer.c:76-94 | A word yields a keyword token without text, or an identifier whose text is a non-keyword word. |
| Tokenizer.WordAtText | tokenizer/tokenizer.c:70-75 | The clipped text of a word starts with a letter and is alphanumeric. |
| Tokenizer.NumberAtText | tokenizer/tokenizer.c:96-101 | The clipped text of a number is a non-empty run of digits. |
| Tokenizer.ScanAtScanned | tokenizer/tokenizer.c:104-155 | Every token of a symbol step is well formed. A character literal carries exactly one character. |
| Tokenizer.LexAtScanned | tokenizer/tokenizer.c:64-160 | Every token of a successful scan from any position is well formed. |
| Tokenizer.LexScanned | tokenizer/tokenizer.c:64-160 | In a successful scan, a token has text exactly when it is an identifier, an integer literal or a character literal. No token is `let`, `short`, `long`, `&&`, `\|\|`, quote or empty. Identifiers are non-keyword words and literals are digits. |
| Parser.PeekAt | parser/parser.c:15-26 | Has a value exactly when index+offset is inside the token list. It then holds that token, and otherwise the empty token. |
| Parser.ExprAt | parser/parser.c:34-58 | An integer literal or identifier at the cursor becomes a leaf of that token and is consumed. Anything else gives no expression and consumes nothing. |
| Parser.StmtAt | parser/parser.c:66-139 | A recognised statement consumes at least one token and stays within the list. So does an `exit` or `let` form with no literal or name where its expression belongs, which yields `NoPrimary` because the C statement's expression is never assigned. An unrecognised position consumes nothing. |
| Parser.Parser.constructor | parser/parser.c:6-12 | The parser starts at index 0 over the given tokens. |
| Parser.Parser.Consume | parser/parser.c:29-31 | Returns the token at the cursor and advances by one. |
| Parser.Parser.ParseExpr | parser/parser.c:34-58 | Its result and the new cursor are those of `ExprAt`. |
| Parser.Parser.ExpectOptional | parser/parser.c:84-94 | Skips the next token exactly when it has the expected kind. A missing `)` or `;` is only reported. |
| Parser.Parser.ParseStmt | parser/parser.c:66-139 | Its result and the new cursor are those of `StmtAt`, including the read past the end after a final `exit` and the form without a primary. |
| Parser.Parser.ParseProg | parser/parser.c:142-159 | Agrees with `ProgFrom`: the statement list, the position where the loop stops advancing, a read past the end, or the position of a statement whose expression is indeterminate. |
| Parser.StmtAtShape | parser/parser.c:66-139 | Every parsed statement is an `exit` or a `let` of an identifier, and its expression is a leaf: an integer literal or a name. With text on every text token, it is well formed. |
| Parser.ProgFromShape | parser/parser.c:142-159 | Every statement of a parsed program has that shape. |
| Parser.ProgFromNeverEnds | parser/parser.c:147-155 | The loop stops advancing only at a token inside the list that starts neither an `exit` nor a `let name =` form. |
| Parser.ProgFromIndeterminate | parser/parser.c:66-139 | A program is indeterminate only at a token inside the list that starts an `exit` or `let name =` form whose expression position holds no literal or name. |
| Parser.ProgFromReadPastEnd | parser/parser.c:70-77 | Reading past the end happens only when the last token is `exit`. |
| Parser.StmtAtTokens | parser/parser.c:66-139 | Parsing the five tokens of a printed `exit ( e ) ;` or `let x = e ;` gives the statement back and consumes all five. |
| Parser.ProgFromTokens | parser/parser.c:142-159 | From any position, parsing the printed tokens of a statement list gives the list back. |
| Parser.ParseProgTokens | parser/parser.c:142-159 | Parsing a printed program gives it back. |
| BinStmt.OpKind | parser/binstmt/binstmt.c:28-31 | A `+`/`-` token makes a `+`/`-` node and a `*`/`/` token makes a `*`/`/` node. |
| BinStmt.Leaf | parser/binstmt/binstmt.c:62-81 | A leaf is made exactly from an identifier or integer-literal token, holding that token. Any other kind is the error naming that kind. |
| BinStmt.LeafAt | parser/binstmt/binstmt.c:63-65 | A missing token is the given "missing" error. A present token becomes its leaf or the kind error. |
| BinStmt.ScanLeft | parser/binstmt/binstmt.c:19-26 | A hit is a distance i at or after the start whose token at ptr-2i exists and is `+`/`-` (or `*`/`/`). |
| BinStmt.ScanRight | parser/binstmt/binstmt.c:91-98 | The last distance found is 0 or a distance whose token is `*` or `/`. |
| BinStmt.Fill | parser/binstmt/binstmt.c:15-222 | Filling a node keeps its operator. |
| BinStmt.ParseBinStmtRec | parser/binstmt/binstmt.c:7-225 | A NULL top is the error. On success the result is a binary node with the top's operator. |
| BinStmt.FindLeft | parser/binstmt/binstmt.c:17-26 | The left-scan loop finds exactly what `ScanLeft` finds. |
| BinStmt.FindLastMulDiv | parser/binstmt/binstmt.c:85-98 | The right-scan loop ends with the `last_j` and `j` of `ScanRight`. |
| BinStmt.LeafNode | parser/binstmt/binstmt.c:62-81 | Builds the leaf `LeafAt` describes. |
| BinStmt.FillNode | parser/binstmt/binstmt.c:15-222 | Fills the node as `Fill` describes. |
| BinStmt.SubtreeNode | parser/binstmt/binstmt.c:28-36 | A fresh node for the operator found, filled recursively, is `Subtree`. |
| BinStmt.AddSubLeft | parser/binstmt/binstmt.c:15-81 | The left child of a `+`/`-` node is the nearest `+`/`-` subtree to the left, else the nearest `*`/`/` subtree, else the leaf before the operator. |
| BinStmt.AddSubRight | parser/binstmt/binstmt.c:84-164 | The right child of a `+`/`-` node is as the right scan, the candidate leaf and the immediate-rhs fallback decide. |
| BinStmt.ScannedRight | parser/binstmt/binstmt.c:86-140 | The branch taken when the token after the right operand is not `+`/`-` agrees with `FillAddSubRight`. |
| BinStmt.MulDivLeft | parser/binstmt/binstmt.c:169-201 | The left child of a `*`/`/` node is the `*`/`/` subtree just before it, else the leaf before it. |
| BinStmt.Build | parser/binstmt/binstmt.c:7-225 | The imperative builder returns exactly `ParseBinStmtRec`. |
| BinStmt.FillShaped | parser/binstmt/binstmt.c:15-222 | Every completed node has the precedence shape: `+`/`-` never appears as a right child, and a `*`/`/` node has a leaf on its right and no `+`/`-` below it. |
| BinStmt.AddSubLeftShaped | parser/binstmt/binstmt.c:15-81 | The left child of a `+`/`-` node has the precedence shape. |
| BinStmt.AddSubRightShaped | parser/binstmt/binstmt.c:84-164 | The right child of a `+`/`-` node has the shape and is never a `+`/`-` node, so `+`/`-` associate to the left. |
| BinStmt.MulDivLeftShaped | parser/binstmt/binstmt.c:169-201 | The left child of a `*`/`/` node has the shape and holds no `+`/`-` node. |
| BinStmt.SubtreeShaped | parser/binstmt/binstmt.c:28-36 | A subtree built at an operator has the shape. One built at `*`/`/` is not a `+`/`-` node. |
| BinStmt.ParseBinStmtRecShaped | parser/binstmt/binstmt.c:7-225 | A tree built for a fresh operator node has the precedence shape and that operator at its root. |
| Precedence.ScanLeftPlus | parser/binstmt/binstmt.c:19-26 | Scanning left from a `+`/`-` finds the nearest `+`/`-`, the one whose product run ends just before it. It misses only when no `+`/`-` lies to the left. |
| Precedence.ScanRightGroup | parser/binstmt/binstmt.c:91-98 | With the scan stopped at the next `+`/`-`, the last `*`/`/` found is the end of the product run to the right. |
| Precedence.RunRightOf | parser/binstmt/binstmt.c:86-98 | When a product follows a `+`/`-`, the corrected scan returns the last `*`/`/` of that product, whose run starts right after the `+`/`-`. |
| Precedence.MulDivCovers | parser/binstmt/binstmt.c:166-222 | In a well-formed window, the subtree at a `*`/`/` holds, in order, exactly the tokens of its product run up to its right operand. |
| Precedence.MulDivLeftCovers | parser/binstmt/binstmt.c:169-201 | The left child of a `*`/`/` holds exactly the tokens from the start of its product run to the operator. |
| Precedence.AddSubCovers | parser/binstmt/binstmt.c:15-164 | With the corrected scan, the subtree at a `+`/`-` holds exactly the window's tokens from its start to the end of the product run right of that operator. |
| Precedence.AddSubLeftCovers | parser/binstmt/binstmt.c:15-81 | The left child of a `+`/`-` holds exactly the tokens before the operator. |
| Precedence.AddSubRightCovers | parser/binstmt/binstmt.c:84-164 | After the immediate-rhs fallback, the right child of a `+`/`-` holds exactly the product run that follows the operator. |
| Precedence.AddSubRightRunCovers | parser/binstmt/binstmt.c:91-110 | When a product follows the operator, the right child is that product's subtree and holds exactly its tokens. |
| Precedence.LastAddSubKeepsWindow | parser/binstmt/binstmt.c:7-225 | With the corrected scan, building from the last `+`/`-` of a well-formed window gives a tree whose in-order tokens are the whole window: no operand is lost, repeated or reordered. |
| Precedence.ProductKeepsWindow | parser/binstmt/binstmt.c:166-222 | With either scan, a window of only `*` and `/` built from its last operator gives back the whole window. |
| Precedence.SampleProducts | parser/binstmt/binstmt.c:166-222 | In `1 + 2 * 3 + 4 * 5` the subtrees at the two `*` are `4 * 5` and `2 * 3`. |
| Precedence.WholeWindowLosesOperands | parser/binstmt/binstmt.c:91-98 | As written, building `1 + 2 * 3 + 4 * 5` from its last `+` gives `(1 + 4*5) + 4*5`. `2 * 3` is lost and `4 * 5` is duplicated. |
| Precedence.StopAtAddSubKeepsOperands | parser/binstmt/binstmt.c:91-98 | With the scan stopped at the next `+`/`-`, the same input gives `(1 + 2*3) + 4*5`, whose in-order tokens are the input. |
| Asm.NatToString | generation/generation.c:196 | The decimal text of a number is non-empty and made of digits. |
| Asm.NatToStringInjective | generation/generation.c:196 | Different numbers print as different decimal texts. |
| Asm.LabelNameInjective | generation/generation.c:277-295 | Label names such as `.L_and_false_3` are equal only for equal kind and number, so labels with distinct numbers never clash in the listing. |
| Asm.RenderAll | generation/generation.c:11-18 | One output line per emitted instruction. |
| Asm.RenderAllAppend | generation/generation.c:11-18 | Emitting two pieces one after the other emits their concatenation. |
| Machine.RunAppend | generation/generation.c:414-416 | Running code whose jumps all land inside it, followed by more code, runs the two one after the other. |
| Machine.RunIdiv | generation/generation.c:239 | `idiv rbx` leaves the quotient truncated toward zero in rax. |
| Machine.RunSetCC | generation/generation.c:257-266 | `set<cc> al` puts 1 in al exactly when the condition holds for the values last compared. |
| Machine.ReportedStatus | generation/generation.c:338-340 | The status a parent process sees is the exit value reduced to its low 8 bits: in 0..255 and congruent to it modulo 256. |
| Machine.RunSyscallExit | generation/generation.c:338-340 | `syscall` with 60 in rax ends the process with the status in rdi. |
| Machine.RunCondJump | generation/generation.c:274-287 | `je`/`jne` continue after their label exactly when the values last compared are equal (`je`) or differ (`jne`), and fall through otherwise. |
| Slots.SlotToOffset | generation/generation.c:20-22 | Offsets are multiples of 8, and an assigned slot's offset is at least 8. |
| Slots.SlotCellsDisjoint | generation/generation.c:20-22 | Distinct slots give non-overlapping 8-byte frame cells. |
| Slots.FrameBytes | generation/generation.c:399-404 | For a positive slot count, the frame is the least multiple of 16 that holds every 8-byte slot. |
| Slots.Ensure | generation/generation.c:41-70 | Adds the name with the unassigned slot when it is absent. Every existing entry is unchanged. |
| Slots.EnsureIdempotent | generation/generation.c:41-70 | Ensuring a name twice is ensuring it once. |
| Slots.CollectStmtSpec | generation/generation.c:81-94 | The first pass adds exactly the names the statement declares, including those in `if` bodies, as unassigned, and keeps the existing entries. |
| Slots.CollectStmtsSpec | generation/generation.c:72-79 | Over a statement list, the first pass adds exactly the declared names and keeps the existing entries. |
| Slots.AssignStmtSpec | generation/generation.c:144-166 | The second pass gives each newly declared name the next slot in first-declaration order, and `next` counts the distinct names. |
| Slots.AssignStmtsSpec | generation/generation.c:392-395 | Over a statement list, slots follow first-declaration order without gaps. |
| Slots.AllocateSpec | generation/generation.c:388-397 | After both passes the table holds exactly the declared names. Each slot is the name's position in first-declaration order, and the slot count is the number of distinct names. |
| Slots.AllocateInjective | generation/generation.c:388-397 | No two names share a slot, and every slot is below the slot count. |
| Lowering.Lookup | generation/generation.c:173-183 | Succeeds exactly for a present name with an assigned slot, and returns that slot. The "undefined variable" error occurs exactly for an absent name. |
| Lowering.ArithShape | generation/generation.c:227-243 | `lhs; push; rhs; mov rbx, rax; pop; op` is closed, keeps its labels distinct and in range, and balances its pushes. |
| Lowering.LogicShape | generation/generation.c:271-298 | The short-circuit code of `&&`/`\|\|` is closed, defines its two labels once, and keeps the rhs labels above its own number. |
| Lowering.RecShape | generation/generation.c:186-211 | Every jump in a child's code lands on a label defined later in it. Its labels are distinct and numbered from the counter on, its pushes and pops balance, and it never touches the frame size. |
| Lowering.BinShape | generation/generation.c:214-301 | The code of a binary node has the same properties. |
| Lowering.ExprShape | generation/generation.c:305-321 | The code of an expression has the same properties. |
| Lowering.IfShape | generation/generation.c:344-356 | `cond; test; je end; body; end:` has those properties, with the `if` label numbered between the condition's and the body's labels. |
| Lowering.LetShape | generation/generation.c:327-334 | The code of a `let` has those properties. |
| Lowering.ExitShape | generation/generation.c:336-342 | The code of an `exit` has those properties. |
| Lowering.IfStmtShape | generation/generation.c:344-356 | The code of an `if` statement has those properties. |
| Lowering.ElseShape | generation/generation.c:357-364 | The code of a free-standing `else` has those properties. |
| Lowering.StmtShape | generation/generation.c:324-367 | The code of every statement has those properties. |
| Lowering.StmtsShape | generation/generation.c:414-416 | The code of a statement list has those properties. |
| Lowering.ProgramShape | generation/generation.c:373-424 | The listing opens with `global _start`, `_start:`, `push rbp` and `mov rbp, rsp`. `sub rsp` appears only fifth and only for a non-empty frame. It ends with `mov rax, 60; mov rdi, 0; syscall`. Every jump is forward to a label defined once, and pushes match pops. |
| Lowering.RecErrors | generation/generation.c:186-211 | When every table entry has a slot, the only failure of a child's code is an undefined variable absent from the table. |
| Lowering.BinErrors | generation/generation.c:214-301 | The same holds for a binary node. |
| Lowering.ExprErrors | generation/generation.c:305-321 | The same holds for an expression. |
| Lowering.StmtErrors | generation/generation.c:324-367 | The same holds for a statement. |
| Lowering.StmtsErrors | generation/generation.c:414-416 | The same holds for a statement list. |
| Lowering.ProgramErrors | generation/generation.c:373-424 | Generation of a program fails only on an undefined variable, one the program never declares. The "slot unassigned" error never fires. |
| Lowering.RecCodeOk | generation/generation.c:186-211 | With every slot assigned, a binary tree's code is generated exactly when every name it uses is in the table. |
| Lowering.BinCodeOk | generation/generation.c:214-301 | The same for a binary node. |
| Lowering.ExprCodeOk | generation/generation.c:305-321 | The same for an expression. |
| Lowering.StmtCodeOk | generation/generation.c:324-367 | The same for a statement: the names its expression uses and, for `let`, its own name. |
| Lowering.StmtsCodeOk | generation/generation.c:414-416 | The same for a statement list. |
| Lowering.ProgramCodeOk | generation/generation.c:373-424 | Generation of a program succeeds exactly when every name it uses is declared by one of its `let` statements. |
| Generation.GenData.constructor | generation/generation.c:373-386 | A new generator has empty output, an empty table and label counter 0. Its block stack is whatever the allocation left, given as a parameter. |
| Generation.GenData.Emit | generation/generation.c:11-18 | Appends the instruction's line to the output and changes nothing else. |
| Generation.GenData.EmitAll | generation/generation.c:11-18 | Appends the lines of the instructions in order and changes nothing else. |
| Generation.GenData.NextLabel | generation/generation.c:23-24 | Returns the counter and increments it. |
| Generation.GenData.EnsureVarSlot | generation/generation.c:41-70 | The table becomes `Ensure` of the old table, and nothing else changes. |
| Generation.GenData.CollectVarsInStmt | generation/generation.c:81-94 | The table becomes the first pass over the statement. |
| Generation.GenData.CollectVars | generation/generation.c:72-79 | The table becomes the first pass over the list. |
| Generation.GenData.AssignSlotsInStmt | generation/generation.c:144-166 | The table and the next slot become the second pass over the statement. |
| Generation.GenData.AssignSlots | generation/generation.c:392-395 | The table and the next slot become the second pass over the list. |
| Generation.GenData.LookupVarSlot | generation/generation.c:173-183 | Returns `Lookup` in the current table. |
| Generation.GenData.GenBindexprToRax | generation/generation.c:186-211 | Emits exactly the child's code and advances the label counter past its labels, or stops with its error. |
| Generation.GenData.GenBinexprToRax | generation/generation.c:214-301 | The same holds for a binary node, taking the `&&`/`\|\|` label number before the lhs. |
| Generation.GenData.GenExprToRax | generation/generation.c:305-321 | The same holds for an expression. |
| Generation.GenData.GenStmt | generation/generation.c:324-367 | The same holds for a statement. |
| Generation.GenData.GenIf | generation/generation.c:344-356 | The same holds for an `if`, taking its label number after the condition. |
| Generation.GenData.GenGuarded | generation/generation.c:347-355 | Emits `test; je end`, the body and `end:`, or stops with the body's error. |
| Generation.GenData.GenStmts | generation/generation.c:414-416 | Emits the statements' code in order, or stops at the first error. |
| Generation.StmtsCodeErrPrefix | generation/generation.c:414-416 | Once a prefix of the statements fails, the whole list fails with that error. |
| Generation.GenerateGenData | generation/generation.c:373-424 | Whatever the uninitialised block stack holds, the table is the allocation of the program. The output is the rendered program listing, or the run ends with the listing's error. |
| Helper.CollectStmtAgree | generation/helper/helper.c:74-91 | Without `for` statements, the helper's first pass equals the generator's. |
| Helper.CollectStmtsAgree | generation/helper/helper.c:65-72 | The same holds for statement lists. |
| Helper.CollectVarsInStmt | generation/helper/helper.c:74-91 | The table becomes the helper's first pass, which visits only a `for`'s init statement. |
| Helper.CollectVars | generation/helper/helper.c:65-72 | The table becomes the helper's first pass over the list. |
| Helper.AssignStmtAgree | generation/helper/helper.c:140-167 | Without `for` statements, the helper's second pass equals the generator's. |
| Helper.AssignStmtsAgree | generation/helper/helper.c:140-167 | The same holds for statement lists. |
| Helper.AssignStmtsUndefinedPrefix | generation/helper/helper.c:158-166 | Once undefined behaviour is reached on a prefix, the whole pass is undefined. |
| Helper.ForBodyDeclUndefined | generation/helper/helper.c:161-166 | As written, a `for` whose body starts with a `let` still needing a slot reaches undefined behaviour: the body pass writes through an incremented pointer. |
| Helper.ForExampleUndefined | generation/helper/helper.c:161-166 | `for (let i = 0; …) { let j = 1; }` is undefined in the helper's second pass, while the generator's second pass gives the loop no slots at all. |
| Helper.AssignSlotsInStmt | generation/helper/helper.c:140-167 | Defined exactly when the helper's pass is defined, and then the table and the next slot are that pass's. |
| Helper.AssignSlots | generation/helper/helper.c:158-160 | The same holds for statement lists. |
| Helper.AssignStmtFixedSpec | generation/helper/helper.c:161-166 | Corrected: with the counter passed through, a `for`'s init and body declarations get slots in first-declaration order without gaps. |
| Helper.AssignStmtsFixedSpec | generation/helper/helper.c:161-166 | The same holds for statement lists. |
| Helper.ForExampleFixed | generation/helper/helper.c:161-166 | Corrected, `for (let i = 0; …) { let j = 1; }` gives i slot 0 and j slot 1, using two slots. |
| Helper.ExprCodeAgree | generation/helper/helper.c:303-321 | The helper's `gen_expr_to_rax` emits the generator's code, except for the empty expression: the comment "gen_expr: NULL" instead of "gen_expr: unknown kind 4". |
| Helper.GenExprToRax | generation/helper/helper.c:303-321 | Emits exactly the helper's expression code, or stops with its error. Its labels are numbered from the helper's own counter, which it advances. The generator's counter, table and block stack stay unchanged. |
| Helper.DeleteNamesSpec | generation/helper/helper.c:323-355 | Deleting a block's names succeeds exactly when they are distinct and all present. It then removes just those names and keeps every other slot. |
| Helper.DeleteLocalVar | generation/helper/helper.c:323-355 | Having no block is an error, and so is a block name missing from the table. Otherwise the table loses the last block's names. |
| Helper.DeleteNamesFails | generation/helper/helper.c:334-342 | The first missing name decides the error for the whole block. |
| Helper.PopBlock | generation/helper/helper.c:359-379 | Drops the last block and keeps the others. With no block, nothing changes. |
| Helper.RemoveLastBlock | generation/helper/helper.c:359-379 | The block list becomes `PopBlock` of the old one, and nothing else changes. |
| Helper.LeaveScope | generation/helper/helper.c:323-379 | Leaving a scope whose names are declared removes exactly those names and pops its block. |
| Correctness.CompareTail | generation/generation.c:246-268 | Each comparison operator sets the condition code that matches its meaning. |
| Correctness.OpTailRuns | generation/generation.c:235-266 | After `pop rax`, the operator's instructions leave the operator applied to lhs and rhs in rax, with truncating division. |
| Correctness.LogicTailRuns | generation/generation.c:279-285 | The tail after the rhs turns rax into 0/1, leaving stack and frame untouched. |
| Correctness.RecRuns | generation/generation.c:186-211 | From a frame that holds every variable's value in its slot, a child's code leaves its value in rax, with stack and frame unchanged. |
| Correctness.BinRuns | generation/generation.c:214-301 | The same holds for a binary node. |
| Correctness.ArithRuns | generation/generation.c:227-268 | Arithmetic and comparison nodes compute their value, with the lhs saved on the stack around the rhs. |
| Correctness.LogicRuns | generation/generation.c:271-298 | `&&`/`\|\|` compute the 0/1 short-circuit value, even when the rhs has no value because the lhs decides. |
| Correctness.ExprRuns | generation/generation.c:305-321 | An expression's code computes its value. |
| Correctness.AgreeStore | generation/generation.c:332 | Storing to a name's slot updates that variable only, since slots are distinct. |
| Correctness.LetRuns | generation/generation.c:327-334 | A `let` leaves the frame holding the new environment. |
| Correctness.ExitRuns | generation/generation.c:336-342 | An `exit` ends the process with the expression's value. |
| Correctness.IfRuns | generation/generation.c:344-356 | An `if` runs its body exactly when the condition is nonzero. |
| Correctness.ElseRuns | generation/generation.c:357-364 | A free-standing `else` runs its body. |
| Correctness.StmtRuns | generation/generation.c:324-367 | Every statement's code reaches its reference outcome: the new environment in the frame, or the exit status. |
| Correctness.StmtsRuns | generation/generation.c:414-416 | The same holds for statement lists. |
| Correctness.PrologueRuns | generation/generation.c:407-411 | The prologue keeps the machine running and the frame unchanged. |
| Correctness.EpilogueRuns | generation/generation.c:419-421 | The epilogue exits with status 0. |
| Correctness.ProgramRuns | generation/generation.c:373-424 | A compiled program whose reference run does not get stuck exits with the status of its first executed `exit`, or with 0. |
| Correctness.ExitExampleRuns | generation/generation.c:373-424 | `exit(2 + 3 * 4);` compiles, and its listing exits with status 14. |
| Correctness.ProgramReportsStatus | generation/generation.c:373-424 | The status a parent sees from a compiled program is the low 8 bits of its first executed `exit`, or 0. |
| Correctness.WideExitReported | generation/generation.c:336-342 | `exit(300);` compiles and ends with 300 in rdi, which a parent sees as 44. |

## Left out

- Reading the source file, writing `main.asm`, and calling `nasm`/`ld` (`main.c`) are I/O and are not modelled.
- The sds strings, the khashl hash table and the kvec vectors are modelled as `seq`, `map` and `seq`. Their memory layout and growth are not modelled.
- Allocation, its failure paths, `strdup`/`free`, and the nodes the parser leaks are not modelled.
- Integers are unbounded. The machine does not model 64-bit wrap-around of `add`/`sub`/`imul`, the real `rflags`, or the bytes of `rsp`.
- Division by zero has no reference value. The machine's `idiv` on zero traps, and `Correctness` only speaks of runs whose reference value exists.
- Debug output to stdout is not modelled (`helper.c` lines 77, 89, 172, 309 and 311). Neither are the diagnostics the parser prints and then ignores.
- Every `exit(1)` of the C code becomes an `Err` result (lexer, builder, generator, scopes).
- Character classes are ASCII; locale-dependent `isalpha`/`isalnum` are not modelled.
- The second `"for"` test at `tokenizer.c:86` can never be reached; the keyword table has `for` once.
- The scanner never produces the `let` keyword, since "let" is read as an identifier. So text that goes through the scanner cannot form a `let` statement, and `LexScanned` shows this. The parser and generator are modelled on token and statement lists as given.
- Lowering.Lookup: `stack_pos` is a `size_t` (`generation.h:11`), on which the `< 0` test of `generation.c:181` is always false. The model keeps -1 as a signed "unassigned" and treats that test as an error. `Lowering.ProgramErrors` shows it never fires after both passes.
- Parser.Parser.ParseStmt: the unconditional consume after `exit` (`parser.c:77`) reads past the end when `exit` is the last token. The model returns `ReadPastEnd` instead of reading memory.
- Parser.Parser.ParseProg: `parse_prog` loops forever at a token that starts no statement. The model returns `NeverEnds(at)`.
- Parser.StmtAt: an `exit` or `let` form with no literal or name where its expression belongs leaves the C statement's expression unassigned (`parser.c:79-82`, `116-124`). The model stops there with `Indeterminate(at)` and does not model what later stages make of that uninitialised value.
- Generation.GenData.constructor: `generate_gen_data` never initialises `m_block`. The model takes its initial value as a parameter, so the garbage pointer is modelled only as some block list or none.
- Semantics.TokenText: a literal or name token with no value is read as the name `""`. In C its NULL value would be passed to the table lookup or emitted as text, which is undefined behaviour. The scanner gives every literal and identifier token its text, so only hand-made token lists reach this case.
- Machine.Exited holds the whole of rdi. A parent process sees only its low 8 bits, which `Machine.ReportedStatus` gives (`exit(300)` is seen as 44). Nothing else in the machine is truncated.
- The statement-kind enumeration in `parser/parser.h` does not declare the `let` kind that `parser.c` and `generation.c` use. The model adds `Let` as its own statement kind.
- The code generator emits only a comment for `while`, `for` and the typed declarations (`char`/`int`/`short`/`long` and reassignment). The model does the same, and the reference semantics gives them no meaning.
- `helper.c` duplicates most of `generation.c`. Only its differences are modelled separately: the `for` cases, `gen_expr_to_rax` on an empty expression, `delete_local_var` and `remove_last_block`. Its own label counter (`helper.c:24-25`) is a separate variable that `generate_gen_data` never resets. It is the `counter` parameter of `Helper.GenExprToRax`, and its starting value is whatever earlier calls left.
- Which code calls `parse_bin_stmt_rec`, and with which window, is not shown. The builder is modelled on an explicit token window `[index, index + ptr_max]`.

## Findings

| source | as written | input that shows it | evidently intended | confidence | as-written member | corrected member |
|---|---|---|---|---|---|---|
| parser/binstmt/binstmt.c:91-98 | The right-hand scan of a `+`/`-` node runs to `ptr_max` and keeps the last `*`/`/` it meets, even past a later `+`/`-`. | `1 + 2 * 3 + 4 * 5`, built from its last `+`. The inner `+` gets `4 * 5` as its right child, so `2 * 3` is lost and `4 * 5` appears twice. | Stop the scan at the next `+`/`-`, so a `+`/`-` takes the product that directly follows it. | not executed | Precedence.WholeWindowLosesOperands | Precedence.StopAtAddSubKeepsOperands |
| generation/helper/helper.c:162 | `next_slot++` increments the pointer, not the counter. The body loop then reads and writes through a pointer one `int` past the counter. | `for (let i = 0; …) { let j = 1; }`: slot assignment for `j` is undefined behaviour. | Pass the counter itself to the init statement, so body declarations continue the numbering. | not executed | Helper.ForExampleUndefined | Helper.ForExampleFixed |
