# A verified model of the compiler

The repository is a small compiler for a Go-like language. It lexes a source, parses it with
binding powers, looks names up while it parses, and lowers the tree to basic blocks. This project
models those cores and the structures under them (object pools, queues, the hash table behind
scopes), and proves what each promises, and where the code keeps the promise only in some cases,
exactly when.

The main results go the whole way. `Compiler.TextPreserved`: any layout of any readable function
body for whose nodes there is room, lexed, parsed, resolved and lowered, becomes blocks that do for
all arguments exactly what the body means. `FileCompiler.ProgramFromText`: any layout of such a file
of functions becomes a program of blocks that answers every call, with recursion, as the file means.
`Compiler.BodyFromAnyText` and `FileSound.FileFromAnyText` are the converse for the front end:
whatever text gives a block, or a whole file, without an error spells a readable one, commas before
a closing bracket or brace aside, and gives its meaning. `Verified.ValidExactly` says which functions
become valid code.

Programs of the repository's own tests are taken all the way, in any layout: `LoopText.ForReturns`,
`GcdText.GcdAnswers` (the greatest common divisor of all numbers), `FibText.FibAnswers`,
`ElseText.ChainAnswers` and `TypedText.TypedAnswers`.

What the parts of the language mean is stated once more without the tables and functions that the
proofs above share: `IntLaws` (arithmetic by the numbers alone), `Precedence` (grouping by lists of
operators), `Meanings` (from the spelling of operators, numbers, types and assignments to what they
compute), the laws of words, numbers and symbols in `LexTheorems`, of names in `Scopes`, of calls in
`FileCompiler`, and of errors in `Recovery`.

There is room for 128 statements, 128 declarations, and about as many nodes of expressions, counted
below under "Nodes". Beyond that the program writes over its own trees or moves them.

`dafny verify dfyconfig.toml` verifies everything.

## Lowering (`src/irgen.c`)

`Source` has the resolved syntax tree (every identifier carries its declaration), the static
rules of what the generator accepts, and a fuelled big-step evaluator. `Ir` has blocks of
instructions and a step machine over blocks, registers and typed memory. `Irgen.Generator` is the
generator: it appends to mutable blocks and moves a current block, compiles bodies before the
conditions that guard them, and turns `for` into a guarded do-while. Its methods are proved
equal to the functions of `Lowering`, about which everything else is proved.

- `Preservation.FunctionPreserved`: for every accepted function, all arguments and all callees,
  the blocks return `v`, fall off the end, hit undefined arithmetic, wait for a call, or diverge,
  if and only if the source does. The blocks are those that are left when an empty last one has
  been deleted (`src/irgen.c:85-88`). A function that is not supported is covered too: where code
  follows a terminator, the machine stops at the first one.
- `Programs.ProgramPreserved`: the same for whole programs with recursion to any depth. Calls
  answer through a partial map that grows with call depth.
- `Deletion.FunctionBounded`: the last block is deleted although another block branches to it if
  and only if the body dangles: its last statement is a loop, or an if chain that has no last else
  or a body that does not end in a return itself. That happens also when every path returns
  (`Deletion.NestedReturnsDangle`).
- `Deletion.FunctionShape`: what is left is what LLVM asks of a function (an entry, one terminator
  in each block and at its end, branches to its own blocks) if and only if no code follows a return
  in its block, no loop body or increment ends in a return, and the body ends in a return or in a
  chain all of whose bodies do. The part about loops is the case in which `CompileFor`
  (`src/irgen.c:253-256`) adds a branch behind a terminator without asking.
- `Typing.AcceptedExactly`: the static rules accept a function exactly when its names are in scope
  and the instructions that are emitted for it are typed as LLVM asks (cells read and written at
  their own width, operands of one width, one-bit conditions, calls and returns as declared). With
  `Deletion.FunctionShape` that gives `Verified.ValidExactly`, which functions become valid code, but for the order in which registers
  are made and read.
- `Endings.LostExactly`: control goes to the deleted block exactly when the source falls off the end
  of a body that dangles or has no code.
- `Liveness.LastBlockDead`, `Deletion.DeadBranches`: when every path returns, the deleted block is
  unreachable, and what still branches to it is unreachable as well.

Integers wrap at 1, 8, 16, 32 and 64 bits. A true `i1` is -1 when it is cast to a wider type,
because the cast is signed.

## Expressions (`src/parser.c`, `src/lexer.c`)

`Pratt` says what the parse functions make of a token array, a cursor and an error queue;
`Parser.ExpressionParser` is the parser that moves them. `Grammar` states the language without the
parser: how a tree is spelled, and which trees the binding powers allow (there are no
parentheses, so the powers alone decide). Completeness, soundness and unambiguity connect the two.
The operator tables are the program's: `!` and `>>=` have a left power but no infix case, `<<=`
has an infix case but no power, so neither shift assignment can occur in a tree
(`PrattSound.NeverShifts`). A comma may end an array (`[x,]`); it is the one token that is consumed
without being in the tree's spelling (`PrattSound.ConsumedExactly`). A key/value list leaves its
closing brace unread; its spelling leaves the brace out as well.

## Statements (`src/parser.c`)

`Statements` specifies the statement parser, with the scopes it looks names up in and the number of
the next object; `StatementParser.BlockParser` computes it. `StatementGrammar` states the statement
language without the parser: spelling, which statements can be read (a dangling `else` and a leading
brace are the hard cases), and what names mean (a loop variable lives in the scope around the loop,
a second declaration of a name changes nothing). `StatementComplete.StatementRead` and
`StatementSound.SoundStatement` connect the two in both directions.
`StatementKeeps.BlockKept` holds for every parse, also with errors it recovers from: a block leaves
the scopes exactly as it found them, and the objects are numbered in the order of the text. With
`Frontend.ParsedTree` that discharges what lowering assumes of its tree, that each declaration
occurs once.

## Files (`src/parser.c`)

`Files` specifies `parse_file`; `FileParser.TopParser` computes it. It goes round for ever at a
token that starts no declaration (`Endless`). `FileGrammar` states files of functions and variables
without the parser. `FileGrammar.ReadsFile`: reading a readable file comes to an end if and only if
no variable has a semicolon behind it. A newline after most values is one: `x := 1` on a line of its
own is a file without end (`FileText.VariableLine`). `FileSound.SoundFile` is the converse.

Parameters go into the scope of the file and stay there, first insertion winning
(`src/parser.c:238-246`): `FileGrammar.OwnNames` says exactly when a function finds its own
parameters, and `FileCompiler.ReturnsParameter` what becomes of a function that does not. For two
functions that return their parameters, `FileText.TwoAccepted` says which names the second
parameter may have, and `TwoAnswer` that every call then answers its argument.

## Nodes (`src/ast.c`, `src/pool.c`)

The trees above are values; in the program they are nodes in three pools of 128 slots each, and
every assignment and definition gives its binary node back (`src/parser.c:395`). `Nodes` says which
calls on the pools each parse makes, whatever its errors; the methods of the three parser classes
make these calls. `NodeGrammar` counts the calls from the spelling: `NodeGrammar.StatementLogIs`,
`FileLogIs`.

- `NodeRoom.HeldExactly`: the pools never ask for more memory and never hand out a node in use
  (`Held`), wherever they are made, if and only if the counted calls fit (`Fits`): at most 128
  statements and 128 declarations, never more than 128 expression nodes in use, and never all 128
  once a node has come back to a pool that was not full.
- `NodePools.NodesKept`: in such a run every node in use holds what was written to it.
  `NodePools.NoRoom`: any other run comes to one of two points. Either all slots are in use, and the
  pool has to ask for memory, which may move it (`Outgrown`, and `Pools.AddressesKept` for the
  addresses handed out before), or the last slot is taken although it links somewhere, and a node
  taken right after it is written over one that is in use (`WrittenOver`).
- `SumText`: `{ a := 1; return a + ... + a }` fits with up to 62 terms, and then returns their
  number. With 63 the node of the last `+` is written over that of the first term.

## Lexing (`src/lexer.c`)

`Lexing` specifies one token and the whole source, `Lexer.SourceLexer` computes it, `Printing` and
`LexTheorems` prove that any layout of printable tokens lexes back, with a semicolon for exactly
those newlines at which the sticky flag is set. Composed with completeness this gives
parse(lex(print(e))) = e for every tree. White space that is skipped up to the end of the source
makes the code step past the NUL; the model gives `LexFault` there, and `Printing.GoodTail` is
exactly when it does not happen. `..` is one period token, and a lone `0` is an octal number
without digits. Assumed: `LLVMConstIntOfString` reads a number without digits as 0, and keeps the low
64 bits of one that is too long. A backslash in a string always makes the program give `realloc` a
pointer into the middle of a buffer (`src/lexer.c:155`, `250`); the model stops there with `escape`.

## Pools, queues, hash tables, scopes

- `Pools`, `SlotPools`: the free list in the slots. The code clears the last link only when it
  creates a pool or restarts an empty list, so taking the last slot can hand out a live slot
  later. `Pools.RunTracks`: a run behaves as a queue of free slots if and only if each call that
  takes the last slot finds no link in it. `Pools.CleanByOperations` decides that from the
  operations alone, and `ReleasedDraining` says when slots can be given back and taken again.
  `ReturnedThenDrained`, `ReleasedOutOfOrder` and `OneSlot` are runs that are not clean;
  `ArenaClean` covers runs that never give a slot back. `Pools.AddressesKept`: the addresses that
  were handed out stay inside the pool if and only if no call moves its memory.
- `Queues`: popping leaves the outward link of the new end. `PopFront` and `PopBack` keep the queue,
  and `Destroy` comes to its end, if and only if they do not go over such a link.
- `Buckets`, `Expansion`, `HashTables`: the items with both of their linked lists, bucket expansion
  with its statistics, add, find, delete, and deletion during iteration. `Valid` is the library's
  own integrity test (`src/includes/uthash.h:400-450`) plus the keys and the placing by hash value.
- `Sorting`: the merge sort of the library, bottom up on the links: sorted and stable for every
  total preorder.
- `Scopes`: a stack of such tables is a stack of maps in which the first insertion of a name wins.

## Model

| member | source | states |
|---|---|---|
| `Ints.PromoteKeepsValue` | `src/irgen.c:408-427` | Casting both operands to 64 bits keeps the signed value of each, at every pair of widths. |
| `Ints.NegationIsMultiplication` | `src/irgen.c:584-617` | Multiplying by -1 is modular negation at every width; only the most negative value stays itself. |
| `IntLaws.RangeOfBits` | `src/irgen.c:8-30` | A type of n bits holds the numbers x with -2^n <= 2x < 2^n, and no others. |
| `IntLaws.WrapReduced` | `src/irgen.c:340-378` | Of a number that is cast to an integer type a number in its range is left, which differs from it by a multiple of 2^n. |
| `IntLaws.ReducedUnique` | `src/irgen.c:340-378` | Only one number is that. |
| `IntLaws.RingLaws` | `src/irgen.c:440-470` | `+`, `-` and `*` give the exact result reduced in that way, at every width. |
| `IntLaws.DivisionLaws` | `src/irgen.c:472-490` | `/` and `%` have no result exactly for a divisor of 0 and for the least number by -1; else the dividend is divisor times quotient plus remainder, the remainder is smaller than the divisor, and it is 0 or has the sign of the dividend. |
| `IntLaws.OrderLaws` | `src/irgen.c:492-554` | Exactly one of `<`, `==` and `>` holds, and `>=`, `<=` and `!=` are their negations; `<` is the order of the numbers. |
| `Meanings.OperatorIs` | `src/irgen.c:436-571` | The operator with a given spelling computes at each width what the spelling says, by the three laws above. |
| `Meanings.OperatorsAre` | `src/irgen.c:436-571` | Exactly eleven operators, by their spelling, have a meaning here. |
| `Meanings.UnaryIs` | `src/irgen.c:584-616` | Of the two signs the parser reads in front of an expression only `-` has a meaning here: zero less the value, reduced to its width. |
| `Meanings.NumberIs` | `src/irgen.c:384-400` | Digits have the value of the sum of each digit times the power of its place. |
| `Meanings.LiteralIs` | `src/irgen.c:384-400` | The base is 10, 16 behind `0x`, and 8 behind a zero. |
| `Meanings.TypeIs` | `src/irgen.c:8-30` | The range of numbers of each type that has a name. |
| `Meanings.TruthIs` | `src/irgen.c:573-582` | `true` and `false` are the two values of one bit, whatever is declared. |
| `Meanings.BranchIs` | `src/irgen.c:174-230` | With the test `true` the body runs, and with `false` what stands after `else`. |
| `Meanings.BoundIs` | `src/irgen.c:60-82` | Each parameter holds the argument in its place. |
| `Meanings.CallIs` | `src/irgen.c:619-632` | A call has the width of the result of the function that is called, and its answer. |
| `Meanings.DeclaredIs` | `src/irgen.c:296-324` | A typed variable holds its value reduced to the type; all others keep theirs. |
| `Meanings.AssignmentsAre` | `src/parser.c:351-360` | The operators that make an assignment of an expression, by their spelling. |
| `Meanings.AssignedIs` | `src/ast.c:175-211` | `x op= e` stores what `op` computes of the variable and the value, and nothing else changes; it traps exactly when `op` has no result. |
| `Meanings.StepIs` | `src/parser.c:490-503` | `n++` and `n--` store one more and one less, reduced to 64 bits. |
| `ExpSimulation.ExpWidth` | `src/irgen.c:402-427` | The generated operand has the width that the static rules give the expression. |
| `ExpSimulation.RunExp` | `src/irgen.c:402-632` | The code of any accepted expression, the constants `true` and `false` included, leaves the wrapped source value in its operand, changes no memory cell and no earlier register, and stops exactly when the evaluator stops. |
| `Growth.SmtExtends` | `src/irgen.c:95-291` | Compiling a statement only appends to the current block and to new blocks; all older blocks, registers and allocations stay. |
| `Growth.BlockAtTouches` | `src/irgen.c:111-125` | `CompileBlockAt` restores the caller's block and touches only the given block and new ones. |
| `Layout.BodyPlace` | `src/irgen.c:237-245` | The loop variable is compiled in the block before; the body is compiled from a new block on and writes to no older one. |
| `Layout.EntryPlace` | `src/irgen.c:247-250` | The guarded entry is written to the block before, after the body has been compiled: the block the body ended in keeps its contents, and the exit is empty. |
| `Layout.ExitPlace` | `src/irgen.c:252-259` | Increment and second test are written where the body ended and to new blocks; code goes on in the exit, still empty. |
| `Simulation.RunLoop` | `src/irgen.c:237-260` | The guarded do-while is `init; while cond { body; inc }`, for bodies that create blocks of their own. |
| `Simulation.RunBranch` | `src/irgen.c:172-230` | An else-if chain of any length runs the branch the source runs and meets at the end block. |
| `Simulation.RunSmt` | `src/irgen.c:262-291` | From any point of a run at which store and memory agree, the code of a statement ends where the source ends, in the same state. |
| `Preservation.RunFunction` | `src/irgen.c:32-92` | One source run with any fuel is one run of the blocks that are left, of at least as many steps when the fuel runs out; where the source falls off, the machine stands at an open block end, or has been sent to the deleted block. |
| `Preservation.SomeBehaviour` | `src/irgen.c:32-92` | An accepted function never goes wrong: for all arguments it has one of the five behaviours. |
| `Preservation.FunctionPreserved` | `src/irgen.c:32-92` | The blocks that are left and the source have the same behaviour, in both directions, divergence included. |
| `Preservation.FallsWhere` | `src/irgen.c:83-88` | When the source falls off, control goes to the deleted block if there is one, else to an open block end; and only then. |
| `Programs.CallsAgree` | `src/irgen.c:619-632` | At every call depth the compiled functions answer the same calls with the same results as the source. |
| `Programs.DeeperMore` | `src/irgen.c:619-632` | Allowing deeper calls never changes an answer. |
| `Programs.ProgramPreserved` | `src/irgen.c:32-92` | A call of a program function answers `r` in the source exactly when it does in the compiled program, with recursion. |
| `Programs.ProgramDeterministic` | `src/irgen.c:32-92` | A call has at most one answer. |
| `Programs.OneDeeper` | `src/irgen.c:619-632` | What a function answers with the calls of some depth the program answers one deeper. |
| `GraphShape.JudgeSmt` | `src/irgen.c:101-291` | A statement leaves all blocks it wrote closed, except the current one, exactly when it is supported. |
| `GraphShape.FunctionJudged` | `src/irgen.c:32-83` | Before the deletion, all blocks but the last are closed if and only if the body is supported, and then the last one is terminated exactly when the body ends in a return. |
| `Deletion.OnwardSmt` | `src/irgen.c:101-291` | The code of a statement branches to blocks of its own and to no older one. |
| `Deletion.AfterSmt` | `src/irgen.c:101-291` | After any accepted statement the current block is terminated exactly when the statement ends in a return. |
| `Deletion.BranchTargets` | `src/irgen.c:172-230` | The end block of a chain is branched to exactly when one of its bodies does not end in a return or it has no last else. |
| `Deletion.LandsSmt` | `src/irgen.c:101-291` | Whether the block in which a statement ends has code, is empty with a branch to it, or empty without one, read off the statement. |
| `Deletion.FunctionBounded` | `src/irgen.c:85-88` | For every accepted function: the deleted block has a branch to it, and what is left has a branch to no block, exactly when the body dangles. |
| `Deletion.FunctionShape` | `src/irgen.c:32-92` | What is left is well formed if and only if the body is supported and ends in a return, or in a chain all of whose bodies do. |
| `Deletion.EndsReturns` | `src/irgen.c:85-88` | A body that ends so returns on all paths. |
| `Deletion.DeadBranches` | `src/irgen.c:85-88` | When every path returns, the body dangles exactly when an unreachable block branches to the deleted one. |
| `Deletion.NestedReturnsDangle` | `src/irgen.c:172-230` | For `if c { if c { return 1 } else { return 2 } } else { return 3 }` every path returns, and what is left is not well formed. |
| `Deletion.LoopReturnsSpoilt` | `src/irgen.c:252-256` | For `for i := 0; i < 2; i = i + 1 { return 1 } return 2` the function ends and every branch has its target, and still what is left is not well formed. |
| `Typing.ExpTyped` | `src/irgen.c:402-632` | The code of an expression whose names are in scope is typed exactly when the static rules give the expression a type, and its operand has that type. |
| `Typing.SmtTyped` | `src/irgen.c:118-324` | The code of a statement whose names are in scope is typed exactly when the static rules accept the statement. |
| `Typing.FunctionTyped` | `src/irgen.c:33-91` | Each declaration of a function has a register of its own where a cell of its width is made, and the code of the function is typed exactly when the static rules accept its body. |
| `Typing.AcceptedExactly` | `src/irgen.c:33-91` | A function is accepted if and only if its tree is proper, its names are in scope and its code is typed. |
| `Verified.ValidExactly` | `tests/integration_test.cpp:57-63` | The blocks that are left are well formed and their instructions typed if and only if the static rules accept the body, no code follows a return, no loop body or increment ends in one, and the body ends in a return or in a chain all of whose bodies do. |
| `Liveness.LiveSmt` | `src/irgen.c:101-291` | Control reaches only the blocks listed for a statement, and gets past it only if some path completes it. |
| `Liveness.LastBlockDead` | `src/irgen.c:83-88` | If the body is supported and every path returns, the last block is terminated or unreachable; deleting it removes nothing reachable and no reachable block branches to it. |
| `Endings.NeverFallsOff` | `src/irgen.c:83-88` | If every path returns, no run gets to an open block end or to the deleted block. |
| `Endings.LostExactly` | `src/irgen.c:85-88` | Control gets to the deleted block exactly when the source falls off the end of a body that dangles or has no code. |
| `Endings.WellFormedReturns` | `src/irgen.c:83-88` | Well-formed blocks never run to an open end or to the deleted block. |
| `Irgen.Generator.SetBlock` | `src/irgen.c:95-98` | Block and builder move together. |
| `Irgen.Generator.Cast` | `src/irgen.c:341-381` | Code and operand of a cast; none is emitted between equal widths. |
| `Irgen.Generator.CompileExp` | `src/irgen.c:685-705` | Emits the specified code for any expression. |
| `Irgen.Generator.CompileBinaryExp` | `src/irgen.c:402-571` | Left operand first, both promoted when the widths differ, then one instruction. |
| `Irgen.Generator.CompileCallExp` | `src/irgen.c:619-632` | Arguments from left to right, then the call. |
| `Irgen.Generator.CompileVarible` | `src/irgen.c:295-328` | Value, cast to the declared type, allocation, store; the declaration gets its allocation. |
| `Irgen.Generator.CompileSmt` | `src/irgen.c:262-291` | Emits the specified code for any statement, threading the current block. |
| `Irgen.Generator.CompileBlock` | `src/irgen.c:101-108` | The statements of a block in order. |
| `Irgen.Generator.CompileBlockAt` | `src/irgen.c:111-125` | Compiles elsewhere, comes back, and says where it ended. |
| `Irgen.Generator.CompileIf` | `src/irgen.c:232-235` | The whole chain, with the end block appended first. |
| `Irgen.Generator.CompileIfBranch` | `src/irgen.c:172-230` | One branch of a chain and the branches after it. |
| `Irgen.Generator.CompileIfTest` | `src/irgen.c:189-219` | Body first, then the condition and the branch in the parent. |
| `Irgen.Generator.CompileFor` | `src/irgen.c:237-260` | The loop pieces in the program's order. |
| `Irgen.Generator.CompileFunction` | `src/irgen.c:32-92` | Deletes the last block if it is empty. The blocks it gives preserve the behaviour of the function, are well formed exactly when the body is supported and ends, and branch to one another only exactly when it does not dangle. |
| `Irgen.Established` | `src/irgen.c:32-92` | The three facts about the specified result that `CompileFunction` delivers. |
| `Assignments.AcceptedExactly` | `src/ast.c:176-211` | `x op= e` is accepted exactly when the widths agree or `x` has 64 bits; with the pipe and shift operators never, since the generator asserts on them. |
| `Assignments.StepAcceptedExactly` | `src/parser.c:488-500` | `++` and `--` are accepted for 64-bit variables only. |
| `Assignments.StepsCancel` | `src/parser.c:488-500` | `x++` and then `x--` give back any store, also at the largest number. |
| `Pratt.ParseExp` | `src/parser.c:515-528` | Every error-free or erroneous parse moves the cursor forward, only adds errors, and adds one whenever there is no tree. |
| `PrattComplete.WalkFlatten` | `src/parser.c:569-651` | Walking along a tree follows exactly its spelling. |
| `PrattComplete.Completeness` | `src/parser.c:515-651` | For every tree respecting the powers at `rbp` and every rest that does not bind into it, the parser returns that tree, stops at the rest and queues no error. |
| `PrattComplete.Unambiguous` | `src/parser.c:521-526` | Two respecting trees with the same spelling are equal. |
| `PrattSound.Soundness` | `src/parser.c:515-651` | Without an error the tree respects the powers, is spelled by the consumed tokens (commas before a closing bracket or brace aside), and the next token does not bind to it. |
| `PrattSound.ConsumedExactly` | `src/parser.c:688-701` | The consumed tokens are the spelling itself if and only if no comma stands right before a closing bracket or brace. |
| `PrattSound.TrailingCommaAccepted` | `src/parser.c:688-701` | `[x,]` is read without an error. |
| `PrattSound.ReadAgain` | `src/parser.c:515-528` | Reading the spelling of any error-free result gives it back. |
| `PrattSound.NeverShifts` | `src/lexer.c:668-716` | No readable tree contains `<<=` or `>>=`. |
| `Precedence.OneGrouping` | `src/lexer.c:668-716` | For all binary operators p, q and names a, b, c: `a p b q c` is read as `a p (b q c)` if and only if q is of a stronger class, or of the same one and that is assignments or logical, and as `(a p b) q c` otherwise. The classes are lists of operators. |
| `Precedence.PrefixFirst` | `src/parser.c:547-549` | `-a q b` and `!a q b` are read as `(-a) q b` and `(!a) q b` for every binary operator. |
| `Precedence.PrefixSecond` | `src/parser.c:547-549` | `a q -b` is read as `a q (-b)`. |
| `Precedence.SuffixOverPrefix` | `src/parser.c:589-626` | A selector, an index or a call behind an operand with a sign belongs to the operand. |
| `Precedence.SuffixOverBinary` | `src/parser.c:589-626` | Behind the right operand of a binary operator it belongs to that operand. |
| `Precedence.SuffixBeforeBinary` | `src/parser.c:589-626` | Behind the left operand it belongs to that one. |
| `Precedence.SuffixesInOrder` | `src/parser.c:589-626` | Two of them are taken from left to right. |
| `Precedence.AfterName` | `src/parser.c:515-528` | A name is an expression of its own before every token that is no binary operator and starts none of the three; before `!` and `>>=` it is an error. |
| `Parser.ExpressionParser.Expect` | `src/parser.c:93-102` | Past the token if it is there, one more error if not. |
| `Parser.ExpressionParser.ParseExpression` | `src/parser.c:515-528` | Computes the specified tree, cursor and errors, and takes the specified number of nodes. |
| `Parser.ExpressionParser.Nud` | `src/parser.c:536-566` | The prefix cases. |
| `Parser.ExpressionParser.Led` | `src/parser.c:569-651` | The infix cases with their right powers. |
| `Parser.ExpressionParser.ParseIndex` | `src/parser.c:594-599` | An index and its closing bracket. |
| `Parser.ExpressionParser.ParseCall` | `src/parser.c:601-626` | Arguments up to the closing parenthesis. |
| `Parser.ExpressionParser.ParseArray` | `src/parser.c:688-701` | Values up to the closing bracket; a comma may end them. |
| `Parser.ExpressionParser.ParseKeyValueList` | `src/parser.c:672-685` | Entries up to the closing brace, which stays. |
| `Parser.ExpressionParser.ParseKeyValue` | `src/parser.c:654-669` | One entry, with or without a key. |
| `Parser.ExpressionParser.ReadExpression` | `src/parser.c:515-528` | An error-free read is sound, and every tree offered by the tokens is the one read. |
| `Statements.ParseType` | `src/parser.c:704-724` | A missing type name leaves the old errors and one type error, and the cursor one token on. |
| `Statements.ParseStatement` | `src/parser.c:332-398` | Every parse of a statement moves the cursor on and leaves as many scopes as it found. |
| `StatementGrammar.MeansGrows` | `src/parser.c:405-426` | What a statement means only adds names to the scope it stands in; blocks add none. |
| `StatementComplete.ReadsDecl` | `src/parser.c:265-328` | Both forms of a declaration are read, and the name is in scope only after its value. |
| `StatementComplete.ReadsIf` | `src/parser.c:441-461` | An else-if chain of any length is read as it is written. |
| `StatementComplete.ReadsFor` | `src/parser.c:463-482` | Index, test, increment and body of a loop, each in its scopes. |
| `StatementComplete.ReadsList` | `src/parser.c:405-420` | The statements of a block, with or without a semicolon after the last. |
| `StatementComplete.StatementRead` | `src/parser.c:332-512` | Every readable statement before every token it can stand before is read back with its names looked up, without an error. |
| `StatementComplete.StatementUnambiguous` | `src/parser.c:332-512` | Readable statements with the same spelling mean the same in all scopes. |
| `StatementSound.SoundStatement` | `src/parser.c:332-512` | A statement read without an error is readable where it stands, means what its spelling means, and is spelled by the tokens consumed, commas before a closing bracket or brace aside. |
| `StatementSound.SoundBlock` | `src/parser.c:405-426` | The same for blocks. |
| `StatementSound.VariableSound` | `src/parser.c:265-328` | The same for declarations. |
| `StatementKeeps.StatementKept` | `src/parser.c:332-398` | Every parse of a statement, also with errors, keeps the outer scopes and numbers the new objects in order. |
| `StatementKeeps.BlockKept` | `src/parser.c:405-426` | Every parse of a block, also with errors, leaves exactly the scopes it was entered with. |
| `StatementParser.BlockParser.ReadType` | `src/parser.c:704-724` | Computes the specified type, cursor and errors. |
| `StatementParser.BlockParser.ReadVariable` | `src/parser.c:265-328` | The same for variables. |
| `StatementParser.BlockParser.ReadStatement` | `src/parser.c:332-398` | Computes the specified statement, cursor, errors and scopes, and makes the specified calls on the pools. |
| `StatementParser.BlockParser.ReadKnown` | `src/parser.c:429-512` | The statements known by their first token. |
| `StatementParser.BlockParser.ReadStep` | `src/parser.c:488-506` | `++` and `--`, or back to the name. |
| `StatementParser.BlockParser.Convert` | `src/parser.c:338-398` | Assignments and declarations made of an expression. |
| `StatementParser.BlockParser.ReadFor` | `src/parser.c:463-482` | A loop. |
| `StatementParser.BlockParser.ReadBlock` | `src/parser.c:405-426` | A block, in a scope of its own. |
| `StatementParser.BlockParser.ReadList` | `src/parser.c:410-418` | The statements up to the closing brace. |
| `Frontend.NumberedTree` | `src/parser.c:319-327` | Statements whose objects are numbered in the order of the text make a tree in which each declaration occurs once. |
| `Frontend.ParsedTree` | `src/parser.c:405-426` | Every block the parser reads is such a tree. |
| `NodeSizes.ExpSize` | `src/parser.c:515-701` | An expression read without an error takes one node for each of its tree. |
| `NodeSizes.BinaryNodes` | `src/parser.c:515-651` | Whatever the errors, what was read as a binary node took another node besides. |
| `NodeGrammar.StatementLogIs` | `src/parser.c:332-512` | Reading a readable statement makes exactly the calls on the pools that are counted in it. |
| `NodeGrammar.FunctionLogIs` | `src/parser.c:176-262` | The same for functions. |
| `NodeGrammar.FileLogIs` | `src/parser.c:14-28` | The same for files. |
| `NodePools.ServesExactly` | `src/pool.c:109-139` | A pool hands out a slot not in use each time and needs no more memory, over every run of this kind, exactly when the count of nodes leaves room. |
| `NodePools.NodesKept` | `src/pool.c:109-139` | If there is room, every node in use holds what was written to it, at each point of the run. |
| `NodePools.Outgrown` | `src/pool.c:109-110` | With all slots in use, the next node makes the pool ask for more memory. |
| `NodePools.WrittenOver` | `src/pool.c:109-139` | After a node has come back, taking the last slot makes the next node be written over one in use. |
| `NodePools.NoRoom` | `src/pool.c:109-139` | A run that does not fit comes to one of these two points. |
| `NodeRoom.HeldExactly` | `src/ast.c:3-12` | The three pools hold, wherever they are made, if and only if the calls on them fit by count. |
| `NodeRoom.BlockRoom` | `src/parser.c:332-512` | That is so for every parse of a block, whatever its errors and whatever was parsed before. |
| `NodeRoom.FileRoom` | `src/parser.c:14-28` | And for every parse of a file. |
| `SumText.SumFits` | `src/parser.c:332-398` | A definition and a sum fit exactly up to 62 terms. |
| `SumText.SumReturns` | `src/parser.c:332-398` | Up to there, any text of them becomes blocks that return the number of terms. |
| `SumText.SumWrittenOver` | `src/parser.c:395` | With 63 terms the 130th node, that of the last `+`, is written over the 6th, that of the first term, which is in use. |
| `Compiler.ParsedPreserved` | `src/irgen.c:32-92` | Whatever block was parsed, with room for its nodes and right widths: the pools hold its tree, and the blocks made of it do what the tree does. |
| `Compiler.BodyFromText` | `src/parser.c:405-426` | Any layout of a readable body lexes and parses to its meaning, without an error; the pools hold that tree if and only if the nodes counted in the body fit. |
| `Compiler.LaysOutExactly` | `src/lexer.c:357-388` | A text of white space and printable tokens lays a body out exactly when it lexes to the tokens of the body. |
| `Compiler.TextPreserved` | `src/irgen.c:32-92` | From the text of any readable body with room for its nodes to blocks with the behaviour of its meaning, for all arguments and callees. |
| `Compiler.LexedClean` | `src/lexer.c:356-555` | Tokens of any lexed text are what soundness asks for. |
| `Compiler.BodyFromAnyText` | `src/parser.c:405-426` | From any text: a block read without an error is readable and has its meaning; the tokens consumed are its spelling if and only if no comma stands before a closing bracket or brace. |
| `Compiler.BodyPrints` | `src/lexer.c:356-555` | Every readable body of printable tokens has a text: its tokens with a space between any two. |
| `LoopText.ForReturns` | `tests/tests/for.acl:1-6` | Any layout of the body of this test lexes, parses and compiles to blocks that return 123, which `tests/integration_test.cpp:134` expects. |
| `LoopText.ForHasText` | `tests/tests/for.acl:1-6` | There is such a layout. |
| `Files.ParseParams` | `src/parser.c:196-223` | Parameters move the cursor forward and leave scopes and numbering alone. |
| `FileGrammar.ReadsFunction` | `src/parser.c:176-262` | Every readable function is read as it is meant, without an error. |
| `FileGrammar.ReadsFile` | `src/parser.c:14-28` | Reading a readable file of functions and variables comes to an end if and only if no variable has a semicolon behind it, and then gives what it means. |
| `FileGrammar.VariableLoops` | `src/parser.c:14-28` | At the semicolon behind a variable the loop goes on for ever, whatever follows. |
| `FileText.VariableLine` | `src/parser.c:14-28` | The text `x := 1` and a newline is such a file. |
| `FileSound.SoundFunction` | `src/parser.c:176-262` | A function read without an error is readable, has its meaning, and is spelled by the tokens consumed, commas before a closing bracket or brace aside. |
| `FileSound.SoundFile` | `src/parser.c:14-28` | The same for a file that is read to its end. |
| `FileSound.FileFromAnyText` | `src/parser.c:14-28` | From any text: a file read to its end without an error is readable and has its meaning; the tokens are its spelling if and only if no comma stands before a closing bracket or brace. |
| `FileGrammar.OwnNames` | `src/parser.c:238-254` | A parameter is found under its name exactly when no name inserted before it in the file is the same; when a name of an earlier function is, an object of that function is found. |
| `FileGrammar.FoundByName` | `src/parser.c:238-254` | In each later function, and in its own body, a new name of a function finds its object. |
| `FileCompiler.CalleesAre` | `src/irgen.c:619-632` | The objects of the functions lead to their numbers in the file, and no other objects to any. |
| `FileCompiler.CallOf` | `src/irgen.c:619-632` | In the body of function i of every file that is read, a call whose name finds the object of function k, up to i, is a call of function k. |
| `FileCompiler.CallOfNone` | `src/irgen.c:619-632` | A call whose name finds no function up to there is not taken. |
| `FileCompiler.CallByName` | `src/parser.c:248-254` | A call by the name of a function that is new where it is declared is a call of that function, in all functions from it on. |
| `FileCompiler.HeadIs` | `src/irgen.c:35-58` | Each parameter and the result have the widths that their types name. |
| `FileCompiler.FilePreserved` | `src/main.c:57-65` | Whatever file of functions the parser reads, with room for its nodes and right widths: the pools hold its trees, and the program is one the generator accepts and answers every call as its source does. |
| `FileCompiler.FileFromText` | `src/parser.c:14-28` | Any layout of a readable file lexes, and parses to its meaning if and only if no variable has a semicolon behind it; the pools hold its trees if and only if the nodes counted in it fit. |
| `FileCompiler.LaysOutExactly` | `src/lexer.c:357-388` | The same for files. |
| `FileCompiler.ProgramFromText` | `src/main.c:57-65` | From the text of any readable file with room for its nodes and right widths to a program that answers every call as the file means. |
| `FileCompiler.FilePrints` | `src/lexer.c:356-555` | Every readable file of printable tokens has a text. |
| `FileCompiler.ReturnsParameter` | `src/parser.c:238-246` | A function that returns its parameter `n` is accepted exactly when no function before it is called `n` or has a parameter `n`. |
| `FileText.TwoAccepted` | `src/parser.c:238-246` | Of two functions that return their parameters, the second is accepted exactly when its parameter has another name than the first function and its parameter. |
| `FileText.TwoAnswer` | `src/main.c:57-65` | Then any text of the two becomes a program that answers every number with itself. |
| `FileText.TwoHasText` | `src/lexer.c:356-555` | There are such texts, for all names of the parameters. |
| `GcdText.GcdAnswers` | `tests/tests/gcd.acl:1-7` | In any layout of the file: the first function answers all pairs of 64-bit numbers with a common divisor that every common divisor divides, not negative when both are not; only for the least number and -1, in either order, it traps. |
| `GcdText.MainAnswers` | `tests/integration_test.cpp:153-155` | `main` answers 139. |
| `GcdText.GcdHasText` | `tests/tests/gcd.acl:1-11` | There is such a layout. |
| `FibText.FibAnswers` | `tests/tests/fibbonanci.acl:1-7` | In any layout of the file: the first function answers every 64-bit number with its Fibonacci number, reduced to 64 bits. |
| `FibText.MainAnswers` | `tests/integration_test.cpp:157-159` | `main` answers 144. |
| `FibText.FibHasText` | `tests/tests/fibbonanci.acl:1-11` | There is such a layout. |
| `CallText.CallAnswers` | `src/parser.c:248-254` | In any layout of `one`, `two` and `main`, where `main` calls `two`: they answer 1, 2 and 2. |
| `CallText.CallHasText` | `src/parser.c:176-265` | There is such a layout. |
| `ElseText.ChainAnswers` | `tests/integration_test.cpp:125-127` | In any layout of an `if`, an `else if` and an `else` with any truth values in the tests: `main` answers from the first branch whose test is true. |
| `ElseText.ChainHasText` | `tests/tests/ifElseIfElse.acl:1-9` | There is such a layout. |
| `TypedText.TypedAnswers` | `tests/integration_test.cpp:109-111` | In any layout of `var t x = k` and `return -x` in a function of type u, for all types and decimal numbers: it answers what u keeps of the negative of what t keeps of the number. |
| `TypedText.ByteAnswers` | `src/irgen.c:8-30` | That is 56 for `var i8 x = 200` and the type `int`. |
| `TypedText.TypedHasText` | `tests/tests/longVar.acl:1-4` | There is such a layout for all types and numbers that can be written. |
| `ShadowText.InnerReturned` | `src/parser.c:76-84` | In any layout of `{ n := 1; { n := 2; return n } }`, for every name: the blocks return 2. |
| `ShadowText.ShadowHasText` | `src/parser.c:405-426` | There is such a layout for every name. |
| `Recovery.ColonMissing` | `src/parser.c:192-194` | A function without `::` is read as with it, and the missing token is the one error. |
| `Recovery.NameMissing` | `src/parser.c:184-189` | A function without a name is not read: one error, and on past the next block. |
| `Recovery.ArrowMissing` | `src/parser.c:225-230` | The same for a function with parameters and no arrow. |
| `Recovery.EqualMissing` | `src/parser.c:288-290` | A typed variable without `=` is read as with it, and the missing token is the one error. |
| `Recovery.VariableNameMissing` | `src/parser.c:280-285` | A typed variable without a name is not read: one error, and on past the next semicolon. |
| `Recovery.SemicolonMissing` | `src/parser.c:413-418` | Two statements without a semicolon between them are both read, and the missing token is the one error. |
| `Recovery.NotStatement` | `src/parser.c:382-392` | An operation that is no assignment is reported twice, and all up to the second semicolon after it is not read. |
| `Recovery.SkipBlockIs` | `src/parser.c:154-167` | A block that is not read ends where as many braces were closed as opened, and a semicolon there belongs to it. |
| `Recovery.SkipToSemiIs` | `src/parser.c:169-173` | On past the next semicolon, or to the end token before it. |
| `FileParser.TopParser.SkipBlock` | `src/parser.c:154-167` | Past the next block, the blocks inside it, and a semicolon. |
| `FileParser.TopParser.ReadParams` | `src/parser.c:196-223` | Computes the specified parameters, cursor and errors. |
| `FileParser.TopParser.ReadFunction` | `src/parser.c:176-262` | A function with its names in the scope of the file. |
| `FileParser.TopParser.ReadFile` | `src/parser.c:14-28` | The whole file, or where the code goes round for ever, with the calls on the pools up to there. |
| `Printing.ReadsToken` | `src/lexer.c:356-555` | A printed token is read back with its flag, whatever follows that does not continue it. |
| `Printing.LexesGap` | `src/lexer.c:4-13` | White space is skipped, or gives one semicolon exactly when the flag is set and it holds a newline. |
| `Printing.LexesTail` | `src/lexer.c:360-364` | White space at the end of the source is harmless exactly when it is good; otherwise the code reads past the NUL. |
| `Printing.LexOfLayout` | `src/lexer.c:356-555` | Every layout of printable tokens lexes to its tokens, the due semicolons and the end token. |
| `LexTheorems.LayoutInvariant` | `src/lexer.c:4-13` | Sources that differ only in white space, with newlines in the same gaps, lex alike. |
| `LexTheorems.LexCanonical` | `src/lexer.c:356-555` | Every source lexes to tokens of the lexer's form and one end token, which is last. |
| `LexTheorems.LexOfPrint` | `src/lexer.c:557-640` | Tokens printed with single spaces lex back to themselves. |
| `LexTheorems.LexAgain` | `src/lexer.c:557-640` | Printing what was lexed and lexing again changes nothing. |
| `LexTheorems.WordTypes` | `src/lexer.c:333-355` | Exactly these words are keywords. |
| `LexTheorems.WordsAreRuns` | `src/lexer.c:40-62` | A letter and all letters and digits behind it are one token, a keyword or a name, before any other character. |
| `LexTheorems.NumbersAreRuns` | `src/lexer.c:77-145` | Digits of which the first is not 0 are one decimal number, up to a character that is no digit and no point. |
| `LexTheorems.HexesAre` | `src/lexer.c:88-93` | `0x` or `0X` and the decimal digits behind it are one number; the code takes no letters there. |
| `LexTheorems.ZerosAre` | `src/lexer.c:94-120` | A zero and octal digits are one octal number, unless an 8 or a 9 follows: then the number has no value. |
| `LexTheorems.PointsAre` | `src/lexer.c:410-420` | Two points are the token of one, three are an ellipsis. |
| `LexTheorems.SymbolsAre` | `src/lexer.c:390-620` | Each symbol is read from its own spelling, before a character that does not make it longer. |
| `LexTheorems.ParseOfLayout` | `src/parser.c:515-528` | Any layout of a respecting tree without an inner semicolon lexes and parses to that tree. |
| `LexTheorems.ParseOfPrint` | `src/parser.c:515-528` | parse(lex(print(e))) = e. |
| `LexTheorems.SourceSound` | `src/parser.c:515-528` | From source text: an error-free parse respects the powers and is spelled by the lexed tokens. |
| `Lexer.SourceLexer.ClearWhitespace` | `src/lexer.c:4-13` | Skips blanks, and newlines when no semicolon is due. |
| `Lexer.SourceLexer.Word` | `src/lexer.c:40-62` | The longest word. |
| `Lexer.SourceLexer.ExtractMantissa` | `src/lexer.c:65-75` | The longest run of decimal digits below the base. |
| `Lexer.SourceLexer.Number` | `src/lexer.c:78-145` | The decimal, hex, octal and fractional forms. |
| `Lexer.SourceLexer.Switch2` | `src/lexer.c:283-290` | Maximal munch with `=`. |
| `Lexer.SourceLexer.Switch3` | `src/lexer.c:292-303` | Maximal munch with `=` or one more character. |
| `Lexer.SourceLexer.Switch4` | `src/lexer.c:305-320` | Maximal munch with up to three characters. |
| `Lexer.SourceLexer.SymbolToken` | `src/lexer.c:396-534` | Every symbol, by its longest match. |
| `Lexer.SourceLexer.StringToken` | `src/lexer.c:254-281` | A string without escapes up to its closing quote. |
| `Lexer.SourceLexer.NextToken` | `src/lexer.c:364-535` | One token, and the flag after it. |
| `Lexer.SourceLexer.Lex` | `src/lexer.c:356-555` | The whole source, each round moving forward. |
| `Lexer.SourceLexer.LexPrinted` | `src/lexer.c:356-555` | A printed layout given to the lexer comes back as its tokens. |
| `Pools.ThreadedUnique` | `src/pool.c:40-54` | The links spell at most one free list. |
| `Pools.ExtendedThreaded` | `src/pool.c:57-106` | Extension under any new base keeps the old free slots in order and adds exactly the new ones after them. |
| `Pools.ReleasedThreaded` | `src/pool.c:117-137` | A released slot becomes the last free one. |
| `Pools.GotThreaded` | `src/pool.c:109-114` | The slot taken was free; the links still spell a list without it if and only if it was not the last or it links nowhere. |
| `Pools.StepTracks` | `src/pool.c:109-137` | One call keeps the pool at the promised queue if and only if it is clean; a slot handed out is never live. |
| `Pools.RunTracks` | `src/pool.c:57-137` | Over any run: a queue of free slots throughout if and only if every call is clean. |
| `Pools.FreshGot` | `src/pool.c:109-114` | A pool from which slots were only taken hands out the next number. |
| `Pools.ArenaClean` | `src/pool.c:57-114` | Runs without releases, in cleared memory, are always clean. |
| `Pools.AddressesKept` | `src/pool.c:57-106` | From a pool with slots in use, the addresses handed out so far lead into the memory after every call if and only if no call moves it. |
| `Pools.CleanByOperations` | `src/pool.c:57-137` | Whether a run is clean follows from its operations and the slots that hold a link at its start. |
| `Pools.Draining` | `src/pool.c:109-114` | Taking all free slots is clean if and only if the last of them holds no link. |
| `Pools.ReleasedDraining` | `src/pool.c:109-137` | Giving slots back and taking all free ones is clean if and only if the last one given back held no link, or came back alone to a full pool. |
| `Pools.ReturnedThenDrained` | `src/parser.c:395` | One slot of a new pool of two or more, taken and given back, spoils it by the time all are taken. |
| `Pools.ReleasedOutOfOrder` | `src/pool.c:109-137` | Two slots released in the other order: the third call after that returns a live slot. |
| `Pools.OneSlot` | `src/pool.c:94-106` | A pool created with one slot hands out its second slot twice. |
| `SlotPools.SlotPool.constructor` | `src/pool.c:4-27` | A threaded pool of all slots in order. |
| `SlotPools.SlotPool.Count` | `src/pool.c:40-54` | The number of live slots. |
| `SlotPools.SlotPool.Extend` | `src/pool.c:57-106` | The object becomes the extended pool. |
| `SlotPools.SlotPool.Get` | `src/pool.c:109-114` | Hands out a slot that is not live, and stays valid if and only if the call is clean. |
| `SlotPools.SlotPool.Release` | `src/pool.c:117-137` | Appends the slot to the free list. |
| `SlotPools.LiveCount` | `src/pool.c:40-54` | Free and live slots share out the memory. |
| `Queues.Queue.PushFront` | `src/queue.c:17-32` | One more item at the front, whose end is closed. |
| `Queues.Queue.PushBack` | `src/queue.c:34-49` | One more item at the back, whose end is closed. |
| `Queues.Queue.PopFront` | `src/queue.c:51-59` | The first item; the queue stays valid if and only if it is not emptied over a loose link, else it is left empty with a first item. |
| `Queues.Queue.PopBack` | `src/queue.c:61-69` | The same at the back. |
| `Queues.Queue.ReplaceBack` | `src/parser.c:704-710` | A pop followed by a push at the back replaces the last item and closes the end. |
| `Queues.Queue.Destroy` | `src/queue.c:76-82` | Frees each item once, and is at its end then if and only if the back end is closed. |
| `Queues.FrontOnly` | `src/queue.c:17-59` | Runs that pop at the front only are safe. |
| `Queues.BackOnly` | `src/queue.c:17-69` | Runs that pop at the back only are safe. |
| `Queues.Emptying` | `src/queue.c:51-59` | Popping a queue empty at the front is safe if and only if its back end is closed. |
| `Queues.BothEnds` | `src/queue.c:51-69` | A pop at the back spoils emptying at the front; a push at the back repairs it. |
| `Buckets.Bucket.Add` | `src/includes/uthash.h:736-747` | The chain with the item in front, links and count right. |
| `Buckets.Bucket.Delete` | `src/includes/uthash.h:750-760` | The chain without the item, the others in order. |
| `Buckets.Bucket.Find` | `src/includes/uthash.h:714-733` | The item with this hash value and key, or none has them. |
| `Expansion.LowAndShifted` | `src/includes/uthash.h:801-803` | Mask and shift are remainder and quotient by the power of two. |
| `Expansion.LowTwice` | `src/includes/uthash.h:320-323` | Doubling the buckets parts each in two: an item stays or moves up by the old number. |
| `Expansion.IdealIsCeiling` | `src/includes/uthash.h:801-803` | The ideal chain length is the number of items by buckets, rounded up. |
| `Expansion.TimesDivides` | `src/includes/uthash.h:813-817` | The multiplier is the quotient of chain length and ideal. |
| `Expansion.ExcessMore` | `src/includes/uthash.h:813-817` | Counting an item when its chain passes the ideal keeps the sum of the excesses. |
| `Expansion.AddItem` | `src/includes/uthash.h:736-742` | The buckets hold one more item, in its slot. |
| `Expansion.DeleteItem` | `src/includes/uthash.h:364-365` | The buckets hold one item less. |
| `Expansion.MoveTo` | `src/includes/uthash.h:811-823` | One item into its new bucket, statistics kept. |
| `Expansion.MoveChain` | `src/includes/uthash.h:808-825` | All items of an old chain, whose links are lost on the way. |
| `Expansion.Redistribute` | `src/includes/uthash.h:806-826` | All items of all old buckets. |
| `Expansion.ExpandBuckets` | `src/includes/uthash.h:791-826` | Every item is in exactly its new bucket; `nonideal_items` is the sum of the excesses over the ideal length, and each `expand_mult` is the quotient. |
| `HashTables.HashTable.Find` | `src/includes/uthash.h:119-129` | The item with the key, or no item has it. |
| `HashTables.HashTable.Expand` | `src/includes/uthash.h:791-837` | Twice the buckets with the same items, new statistics, and no more expansion after two in a row that helped too little. |
| `HashTables.HashTable.AddToBucket` | `src/includes/uthash.h:736-747` | Expands exactly when the chain reaches its multiplied capacity and expansion is allowed. |
| `HashTables.HashTable.Append` | `src/includes/uthash.h:225-231` | The ordered list with the item at its end. |
| `HashTables.HashTable.Add` | `src/includes/uthash.h:284-305` | One more item in list and buckets, all integrity facts kept, also across expansion. |
| `HashTables.HashTable.Unlink` | `src/includes/uthash.h:347-363` | The ordered list without the item. |
| `HashTables.HashTable.Delete` | `src/includes/uthash.h:337-370` | One item less in list and buckets; the last one takes the table with it. |
| `HashTables.HashTable.Clear` | `src/parser.c:48-52` | Deleting while iterating visits every item once, in order, and empties the table. |
| `HashTables.HashTable.Sort` | `src/includes/uthash.h:844-929` | The list becomes the merge sort of itself, linked both ways with the right head and tail; sorted and stable for every total preorder; the buckets stay. |
| `Sorting.Sorts` | `src/includes/uthash.h:844-929` | The passes end, and give the same items, sorted, those of equal rank in their old order. |
| `Sorting.PassRuns` | `src/includes/uthash.h:853-918` | One pass makes sorted runs of twice the length. |
| `Sorting.MergeAlike` | `src/includes/uthash.h:870-906` | Merging keeps the order of items of equal rank. |
| `Sorting.MergeRuns` | `src/includes/uthash.h:869-914` | Two runs of a list are merged behind what is done, link by link. |
| `Sorting.MergePass` | `src/includes/uthash.h:853-922` | One pass over the links; it merged at most once exactly when two runs were the whole list. |
| `Scopes.RunKeeps` | `src/parser.c:41-84` | A balanced run keeps the scopes outside and only adds to the one it starts in. |
| `Scopes.BlockKeeps` | `src/parser.c:405-426` | Enter, any balanced run, exit: the same stack again, and names not bound inside are found as outside. |
| `Scopes.FoundExactly` | `src/parser.c:76-84` | An object is found for a name if and only if some scope gives the name that object and no scope further in has the name. |
| `Scopes.NotFound` | `src/parser.c:76-84` | None is found if and only if no scope has the name. |
| `Scopes.Shadows` | `src/parser.c:41-84` | A name inserted in a scope just entered is found there, whatever it was before, and all other names are found as before. |
| `Scopes.BindingsOf` | `src/parser.c:61-73` | The map of a table has exactly its items' names and objects. |
| `Scopes.Scope.Insert` | `src/parser.c:61-73` | Binds a new name; a bound name keeps its object and the call says so. |
| `Scopes.ScopeStack.Enter` | `src/parser.c:41-43` | One more empty scope. |
| `Scopes.ScopeStack.Insert` | `src/parser.c:61-73` | First insertion wins, in the innermost scope only. |
| `Scopes.ScopeStack.Find` | `src/parser.c:76-84` | The object of the innermost scope that has the name. |
| `Scopes.ScopeStack.Exit` | `src/parser.c:46-58` | Back to the outer scopes, which are unchanged; each object of the inner one is freed once. |

## Left out

- LLVM itself, its constant folding, value names, verification and bitcode; files and the calls of other programs (`src/main.c`).
- Floating point, arrays, pointers, structures and element addresses in lowering; shifts and logical operators, which the program leaves as assertions (`src/irgen.c:557-566`).
- Source.Check: outside of what it accepts the model says nothing about what the code does; `Typing.AcceptedExactly` says what that is.
- Memory is a list of typed cells that only grows, so stack overflow is not modelled. An `alloca` inside a loop makes a new cell each time.
- Global variables: they are read (`Files.Global`), and lowering leaves them out, as `src/main.c:61-63` compiles functions only.
- StatementParser.BlockParser.ReadBlock: the scopes are a stack of maps here; `Scopes.ScopeStack` is the linked one of the program, proved to behave as that stack.
- Frontend.SmtOf: is None for what lowering leaves out.
- Line and column numbers, lengths of errors, and error texts.
- Lexer.SourceLexer.StringToken: stops with `escape` at a backslash; what the program does after its wrong `realloc` is not modelled.
- Lexer.SourceLexer.NextToken: stops with `escape` at a string with a backslash, for the same reason.
- Lexer.SourceLexer.Lex: gives LexEscape for a source with a backslash in a string, for the same reason.
- Irgen.Generator.Cast: integer types only; the casts to and from floating point are not modelled.
- Irgen.Generator.CompileExp: has no index and array expressions, as arrays are not modelled.
- Irgen.Generator.CompileBinaryExp: integer operands only; floating point is not modelled.
- Irgen.Generator.CompileVarible: has no array values, as arrays are not modelled.
- What a parse gives when its pools do not hold: `NodeRoom.Held` is where trees as values and trees in memory part.
- The 1024-byte buffers of the lexer (the 1024 statements of a block never come before the 128 of a pool), allocation failure, and overflow of machine counters. Tokens beyond the end token are not modelled: the parser's `Fault` stands for reading there.
- Pools.Created: needs at least one slot, since the program writes the first link of a pool without slots outside its memory.
- SlotPools.SlotPool.Release: needs a live slot, which the program asks of its callers but does not look for.
- HashTables.HashTable.Add: needs a new key and an item that is in no bucket, as the library asks.
- The hash function is any function from keys to naturals; the mask of a power of two is stated through the low bits. The Bloom filter, ordered insertion, replacing and selecting of the library are not used by the program and not modelled. Sorting is not used by it either; its order is any function of the two items.
- Queues.Queue.Destroy: stops after the last item; what the program frees behind a loose link is not modelled.
- The methods that grow, join, move and place (`Grow`, `Join`, `Enlist`, `Place`, `Renew` and the like) are parts of one function each of the program, split for their proofs.
