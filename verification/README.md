# Feline: proofs about the compiler, its tables and the editor

Feline is a concatenative language whose native compiler writes x86-64 code. This project
models, in Dafny, the parts of it whose correctness is least visible in their text, and proves
what each promises.

* **The quotation compiler.** `Source` gives the meaning of quotations and of every word the
  compiler expands in line. `CodeGen` gives the listing for each construct, `Emitter` is the
  compiler itself: a class that writes bytes at a moving pc, queues literals and patches
  forward jumps. `X86` has the exact encodings and the processor's reading of them, `Machine`
  a step relation. `Simulation`, `Combinators`, `Clauses`, `Frames`, `Correctness`,
  `CompilerTheorem`, `Words` and `Calls` prove that running the compiled bytes of quotations and
  words has the effect that they mean, however they call one another; `Loading` shows a program
  in memory. A source meaning has a fuel for loops and calls; every statement is for all
  fuels, so it speaks of every computation that ends. `StackEffects` writes the meaning of each
  word out on stacks and shows that fuel only bounds it; `LoadedRun` says what the program in
  memory does to every stack.
* **The disassembler** (`Disassembler`, `Targets`, `Compiler`) decodes independently of the
  emitter and gives back what was emitted, at the same boundaries. `Listings` reads its lines as
  assembly text and ties them to the machine; `ControlFlow` says where control can go.
* **The worklist** of nested quotations (`Worklist`), **choices of `match*`** (`Choices`).
* **The hashtable** (`Hashtable`): linear probing with a sentinel, tombstones and rehashing.
* **The random generator** (`Random`) and **conditional compilation** (`Control`).
* **The editor.** `Editing`, `Undoing`, `Splice`, `EditTexts`, `Redoing`, `History`, `Keeping`,
  `Sessions` and `Pasting` treat the buffer as a value: the edits, what they do to the text, the
  undo records, what redo is good for, and whole sessions. `LineList` and
  `EditorBuffer` are the buffer itself, a doubly linked list of numbered lines changed in
  place, and every method is tied to the value model. `LineDeletion` and `Columns` are two
  smaller cores beside it.

What the statements rest on:

* Machine memory is a map per area: code, data stack and return stack do not overlap, and
  addresses do not wrap around. Literals are raw 64-bit words; nil is 0 and true is 14
  (`src/macros.asm:136-137`), a fixnum n is 2n + 1.
* Words that are not compiled here are given by their stack effect, and combinators called as
  words by their meaning (`Calls.PrimitivesRun`): that their own code has this effect is an
  assumption. A local has no value before one is stored in it.
* `Emitter.Feasible` says that a listing's displacements and immediates fit their fields. The
  code space in low memory (`src/main.c:126`, `src/main.c:158-164`) is meant to ensure it for
  calls; the compiler model gives up on a call that does not fit.
* `Correctness.OpSound` collects what the compiler does not check: `match*` has at most one `_`
  and tests no wrapper keys, a literal stored into a local is not a wrapper, and the forms of
  `?exit` and `?return` are those for the word's locals. The first two are exact
  (`Choices.SameChoiceIff`, `Correctness.LocalSetLiteralIff`).
* The hashtable's lookup and insertion use the only text there is of `puthash_internal`, with
  the tagged fixnum key as its own hashcode; the mask of a power of two is written as a
  remainder, which it is (`Hashtable.HomeIsMasked`).
* In the editor the count of window rows is a parameter. What commands, undo and redo do to
  text, dot, mark and stacks is proved with any top line at all; that a top line stays listed is
  proved from windows that do not start below dot (`windowed`), which every command keeps.

Where the code does not do what one would expect, the model follows the code, an input shows
it, and the exact condition is proved:

* `match*` compiled and interpreted: `Choices.SameChoiceIff`, with `Choices.ChoicesDiffer` for
  every array that fails it; wrapper literals stored into locals: `Correctness.LocalSetLiteralIff`.
* `#ifdef` in a branch that is skipped: `Control.IfdefInsideSkippedBranch` is an input;
  `Control.SkippedWholeIff` says which branches are skipped whole, `Control.ReadsPassed` what
  is read of any tree, and `Control.UnwantedBranchReadIff` which unwanted branches that end in a
  word are read as nothing. Whether the words read happen to be the selected ones all the same
  depends on the words: they are those that `Control.ReadsOn` gives.
* Carriage returns before line feeds: `Splice.InsertsExactlyIff` with
  `Splice.CRLFIsNotInsertedExactly`, `Splice.ReinsertedIff`, `History.DeleteLinesUndoneIff`.
* Line deletion: `LineDeletion.DeleteLineUndoneIff`.
* Redo after commands that leave the redo stack alone: `Keeping.RedoAfterMoveLosesText` is a
  session, `History.RedoOfEditIff` and `Keeping.RedoAfterKeepingIff` the condition.
* The top line after a separator deletion: the last but one clause of
  `EditorBuffer.Buffer.DeleteLineSeparator`.

## Model

| member | source | states |
|---|---|---|
| `StackEffects.ElementEffect` | src/compile-word.asm:483-503 | a wrapper in a quotation pushes the object in it, a symbol runs its word, and any other object is pushed itself |
| `StackEffects.ConcatenationComposes` | src/compile-word.asm:814-825 | running two bodies one after the other is running them as one |
| `StackEffects.CallEffect` | src/quotation.asm:457-523 | calling a quotation runs its body, an early exit ending at the caller; calling a symbol runs its word; nothing else can be called |
| `StackEffects.WordEffect` | src/compile-word.asm:828-954 | a compiled word runs its body with unset locals of its own, and the caller's locals are as they were |
| `StackEffects.ShuffleEffects` | src/primitives.asm:127-131 | nip takes out the second element, call runs the element on top, match? answers with 14 for true and 0 for nil above what it compares |
| `StackEffects.LocalEffects` | src/locals.asm:18-34 | with the fixnum n, the word 2n + 1, on top, local-get pushes local n and local-set changes local n and no other |
| `StackEffects.NoLocal` | src/locals.asm:18-34 | a word that is no fixnum names no local |
| `StackEffects.WhenEffects` | src/primitives.asm:290-350 | x quotation: when and when* call it unless x is 0, when* with x still there, unless calls it when x is 0 |
| `StackEffects.IfEffects` | src/primitives.asm:239-288 | x quotation quotation: the first is called unless x is 0, by if* with x still there, else the second |
| `StackEffects.AndOrEffects` | src/combinators.asm:524-581 | and* stops at a first result of 0 and leaves it, or* stops at any other and leaves it; else the second quotation runs without the first result |
| `StackEffects.KeepEffects` | src/combinators.asm:18-59 | x quotation: the quotation runs with x by keep, without it by dip, and x is on top afterwards |
| `StackEffects.BiEffects` | src/combinators.asm:73-176 | bi calls two quotations with x each, bi@ one quotation with x and then with y |
| `StackEffects.ExitEffects` | src/compile-word.asm:564-700 | ?exit and ?return leave the body exactly when x is not 0, ?return after running its quotation |
| `StackEffects.WhileEffects` | src/primitives.asm:430-475 | a test that leaves 0 ends the loop with the 0 gone; after any other the body runs and the loop goes round again |
| `StackEffects.CondEffects` | src/combinators.asm:363-409 | the clauses of cond are tried in order, a test that leaves 0 going on to the next, a quotation ending the search; without any cond fails |
| `StackEffects.MatchEffects` | src/combinators.asm:286-337 | the pairs of match* are tried in order, a key that is _ or equal ending the search with the element gone; without any it fails |
| `StackEffects.Underflows` | src/primitives.asm:127-475 | every word fails on a stack without its operands |
| `StackEffects.FuelOnlyBounds` | src/primitives.asm:430-475 | a computation that ends has one outcome, whatever bound is put on the rounds and calls it may take |
| `Combinators.RunCall` | src/compile-word.asm:425-473 | a compiled call of a value whose code does what calling it means runs the value and comes back right behind the five-byte call |
| `Combinators.SimWhen` | src/compiler.feline:129-153 | the inline code of when, with its jump over the call, leaves the stack that when leaves, for either flag |
| `Combinators.SimUnless` | src/compiler.feline:183-207 | the same for unless, whose jump has the opposite condition |
| `Combinators.SimWhenStar` | src/compiler.feline:155-181 | the same for when*, which keeps a true value for the call and drops it only when it is nil |
| `Combinators.SimIf` | src/compiler.feline:95-127 | the inline code of if runs exactly the quotation that the flag selects and both ways meet behind the code |
| `Combinators.SimIfStar` | src/compiler.feline:209-241 | the same for if*, which keeps a true value for the first quotation |
| `Combinators.SimAndStar` | src/compiler.feline:63-93 | the inline code of and* runs the second quotation only after a true first result, and leaves the result of the last one run |
| `Combinators.SimOrStar` | src/compiler.feline:243-273 | the same for or*, which stops at the first true result |
| `Combinators.SimWhile` | src/compiler.feline:275-306 | for any number of rounds, the loop's code with its jump back of 26 bytes ends with the state that the loop means |
| `Combinators.SimKeep` | src/compiler.feline:354-379 | the value saved on the return stack comes back on top after the call |
| `Combinators.SimDip` | src/compiler.feline:434-452 | the quotation runs on the stack below the saved value, which comes back on top |
| `Combinators.SimBi` | src/compiler.feline:454-479 | both quotations see the same value |
| `Combinators.SimBiAt` | src/compiler.feline:481-504 | the one quotation runs on each of the two values in turn |
| `Clauses.CondLayout` | src/compiler.feline:611-663 | every two-element clause of cond takes 29 bytes, so a list of n takes 29n: the end address computed beforehand is right and the omitted jump never arises |
| `Clauses.SimCond` | src/compiler.feline:634-663 | cond's code, for any number of clauses with or without a default, ends at its end address with the stack that the interpreted cond leaves |
| `Clauses.MatchLayout` | src/compiler.feline:676-696 | every pair of match* takes 55 bytes |
| `Clauses.RunChosen` | src/compiler.feline:665-738 | match*'s code, for any array that it is emitted for, runs the pair whose unwrapped key is the first equal one before the last _, or that _'s, and ends behind 55 bytes a pair and 13 or 5 more; or it stands at the report that nothing matched |
| `Clauses.SimMatch` | src/compiler.feline:698-738 | on an array that compiler and interpreter read alike, match*'s code selects the pair that the interpreted match* selects and leaves the same stack |
| `Choices.EvalMatchChoice` | src/combinators.asm:287-337 | the interpreted match* runs the first pair whose key is _ or equal to the element, and fails when there is none |
| `Choices.SameChoiceIff` | src/compiler.feline:665-738 | compiled and interpreted match* pick the same pair for every equality and element exactly when at most one key is _ and no key before it is a wrapper: the compiler makes the last _ the default and compares with the key unwrapped, the interpreter stops at the first _ and compares with the key as it is |
| `Choices.ChoicesDiffer` | src/compiler.feline:665-738 | for every other array an equality and an element on which the two choices part |
| `Simulation.RunLiteral` | src/compile-word.asm:483-503 | a compiled literal is pushed whole, by the 32-bit move that zero-extends or by the 64-bit move |
| `Simulation.RunFlush` | src/compile-word.asm:506-519 | flushing the queue pushes the queued literals in order above the run-time stack |
| `Frames.RunLocalGet` | src/compiler.feline:567-598 | reading local n, once it is set, gives its value in each of the three operand forms, on both sides of the switch to a 32-bit displacement at n = 16 |
| `Frames.RunLocalSet` | src/compiler.feline:506-565 | writing local n changes that local and no other |
| `Frames.RunLocalSetLiteral` | src/compiler.feline:506-565 | the same for a literal stored without passing through the stack |
| `Frames.RunNip` | src/compiler.feline:753-773 | nip's one instruction removes the second element |
| `Frames.RunNipLiteral` | src/compiler.feline:753-773 | nip after a literal overwrites the top element with it |
| `Frames.SimExitNoLocals` | src/compile-word.asm:564-571 | ?exit without locals returns from the body with the flag dropped, or goes on with it dropped |
| `Frames.SimExitLocals` | src/compile-word.asm:574-612 | with locals it goes to the epilog instead, through its patched jump |
| `Frames.SimReturnNoLocals` | src/compiler.feline:329-352 | ?return without locals runs the quotation and returns |
| `Frames.SimReturnLocals` | src/compiler.feline:27-61 | with locals it runs the quotation and goes to the epilog, through its patched jump |
| `Correctness.LocalSetLiteralIff` | src/compiler.feline:506-565 | a literal stored straight into a local has the effect of local! exactly when it is no wrapper around something else, since the compiler stores it as it stands |
| `Correctness.SimOperator` | src/compile-word.asm:772-804 | the code of any operator, given the literals that its compiler takes off the queue, has the effect that the operator has on the stack followed by those literals |
| `CompilerTheorem.SimOp` | src/compile-word.asm:506-519 | pending-queue invariant: with the run-time stack followed by the queue standing for the source stack, an operator's code and the flush before it keep that reading |
| `CompilerTheorem.SimElems` | src/compile-word.asm:957-1034 | the code of a whole body, compiled from any queue, does what the body means, whichever way it ends |
| `CompilerTheorem.ElemsSize` | src/compile-word.asm:881-909 | the size of a body does not depend on where the epilog is, so patching the forward jumps afterwards is sound |
| `CompilerTheorem.FinishedParts` | src/compile-word.asm:957-1034 | finished code is prolog, body, epilog and ret in their places, and the patched jumps' target is the epilog's start |
| `CompilerTheorem.PlainBodyIsSound` | src/compile-word.asm:957-1034 | where no heap object is a wrapper and no array holds _, the compiler relies on nothing but that early exits are in the form for the word's locals |
| `Words.RunProlog` | src/compile-word.asm:828-868 | the prolog makes room for the locals below the return stack and points r14 at them |
| `Words.RunEpilog` | src/compile-word.asm:912-954 | the epilog and ret give rsp and r14 their entry values back and leave the caller's return stack as it was |
| `Words.SimFramedWord` | src/compile-word.asm:828-954 | a word with locals, given that calls in it run, returns with the stack its body leaves, with rsp, r14 and the caller's frame restored, on every way out: fall-through, ?exit and ?return |
| `Calls.AllCallsRun` | src/compile-word.asm:425-473 | every compiled call does what calling its target means, however the program's quotations and words call one another, recursion included |
| `Calls.QuotationCorrect` | src/compile-word.asm:957-1034 | compiler correctness: entered with a state represented, the code of a quotation returns to its caller with the final state represented, through all combinators, loops and calls |
| `Calls.WordCorrect` | src/compile-word.asm:828-1034 | the same for a compiled word: it returns with the stack that its body means, run with locals of its own, and the caller's locals are as they were |
| `Calls.BytesAreProgram` | src/compile-word.asm:957-1034 | code memory that holds the finished bytes of every quotation and word is fetched as exactly the listed instructions |
| `Calls.CompiledBytesCorrect` | src/compile-word.asm:957-1034 | the main result over bytes: running the compiled bytes of a quotation gives what the quotation means |
| `Calls.CompiledWordCorrect` | src/compile-word.asm:957-1034 | the same for the compiled bytes of a word, recursive ones included |
| `Loading.ProgramInMemory` | src/compile-word.asm:957-1034 | what these results ask of code memory is met by the bytes of a word with a local and a quotation that call each other |
| `LoadedRun.DropsToNil` | src/compile-word.asm:828-1034 | what that program means: for any stack, everything above the topmost nil is dropped, and the nil, by mutual recursion |
| `LoadedRun.LoadedDropsToNil` | src/compile-word.asm:828-1034 | its bytes do so on the machine, and return with the caller's locals and return stack as they were |
| `LoadedRun.ReturnSpelledOut` | src/compile-word.asm:828-1034 | what returning with a state represented comes to: ip, rsp, r14, the stack in rbx and memory, the locals and the rest of the return stack |
| `LoadedRun.SomeMachine` | src/compile-word.asm:957-1034 | every state is represented by some machine that can return, so these results speak of every stack |
| `CodeGen.LiteralTarget` | src/quotation.asm:470-523 | a literal quotation is called at its code address, a symbol in a wrapper at its word's, and no other literal can be called |
| `CodeGen.KeptTarget` | src/compiler.feline:354-379 | keep calls a lone symbol's word and any other quotation at its own address |
| `CodeGen.LocalLiteral` | src/compiler.feline:506-598 | the literal that names local n is the word 2n + 1, and an even word is refused |
| `CodeGen.TakenIs` | src/compiler.feline:63-127 | which literals each operator's compiler takes off the queue: two only if both are quotations, one, or none |
| `CodeGen.KeepTakes` | src/compiler.feline:354-379 | keep takes a literal quotation or a symbol in a wrapper, and nothing else |
| `Bytes.Int8IsByte` | src/compile-word.asm:401-473 | a number fits a byte displacement exactly when some byte spells it |
| `Bytes.Int32IsBytes` | src/compile-word.asm:425-473 | a number fits a doubleword displacement exactly when some four bytes spell it |
| `X86.FetchEncoded` | src/compile-word.asm:312-519 | the processor's reading of any emitted encoding gives back the instruction, whatever bytes follow |
| `X86.PrefixFree` | src/compile-word.asm:312-519 | no emitted encoding is a prefix of another, so a byte sequence has one reading |
| `Machine.LoadedPlaces` | src/compile-word.asm:312-519 | bytes assembled from a listing and loaded at an address are fetched as that listing, instruction by instruction |
| `Emitter.Emitter.EmitDup` | src/compile-word.asm:374-383 | writes exactly the encoding of dup at the pc |
| `Emitter.Emitter.EmitDrop` | src/compile-word.asm:389-398 | writes exactly the encoding of drop |
| `Emitter.LiteralFits` | src/compile-word.asm:483-503 | the code of every literal can be encoded |
| `Emitter.CallFitsIff` | src/compile-word.asm:425-473 | a call can be encoded exactly when its target is within two gigabytes of its end |
| `Emitter.LocalsFitIff` | src/compiler.feline:506-598 | a local can be read and written exactly when its cell is within two gigabytes of the frame's base |
| `Emitter.FrameFitsIff` | src/compile-word.asm:828-954 | prolog and epilog can be encoded exactly when the frame is smaller than two gigabytes |
| `Emitter.Emitter.CompileCallAddress` | src/compile-word.asm:425-473 | writes a five-byte call to the address, and gives up exactly when the displacement does not fit |
| `Emitter.Emitter.CompileLiteral` | src/compile-word.asm:483-503 | writes dup and the shorter move of the object in the wrapper, if the literal is one, and of the literal itself otherwise |
| `Emitter.Emitter.FlushPending` | src/compile-word.asm:506-519 | compiles every queued literal in order and leaves the queue empty |
| `Emitter.Emitter.CompileOne` | src/compiler.feline:129-207 | when, when*, unless, dip and call take the last literal off the queue, flush the rest and write the listed bytes; with an empty queue they call the word |
| `Emitter.Emitter.CompileTwo` | src/compiler.feline:63-127 | if, if*, and*, or*, while and bi do so with two literal quotations; otherwise they flush and call the word |
| `Emitter.Emitter.CompileKeep` | src/compiler.feline:354-379 | the same for keep, calling a lone symbol directly |
| `Emitter.Emitter.CompileCond` | src/compiler.feline:634-663 | the clause loop and the default leave exactly the bytes of the listing whose end address was computed first |
| `Emitter.Emitter.CompileMatch` | src/compiler.feline:698-738 | the same for match*, with the loop that looks for the last _ |
| `Emitter.Emitter.CompileLocalGet` | src/compiler.feline:567-598 | the bytes of the local's load, with the literal index taken off the queue; for the literal word 2n + 1 they load local n |
| `Emitter.Emitter.CompileLocalSet` | src/compiler.feline:506-565 | the bytes of the local's store, with one or two literals taken; for the literal word 2n + 1 they store to local n |
| `Emitter.Emitter.CompileReturnLocals` | src/compiler.feline:27-61 | the bytes of ?return with a forward jump recorded for patching |
| `Emitter.Emitter.CompileProlog` | src/compile-word.asm:828-868 | the bytes of the prolog, none when there are no locals |
| `Emitter.Emitter.CompileEpilog` | src/compile-word.asm:912-954 | the bytes of the epilog |
| `Emitter.Emitter.CompileOperator` | src/compile-word.asm:772-804 | whatever the operator, the bytes and the queue are those that the listing for it says; it comes through whenever that listing is encodable |
| `Emitter.Emitter.CompileElems` | src/compile-word.asm:814-825 | the loop over the elements leaves the listed bytes of the whole body and an empty queue |
| `Emitter.Emitter.PatchForwardJumps` | src/compile-word.asm:881-909 | every recorded displacement field, and nothing else, is made to lead to the exit address |
| `Emitter.Emitter.CompileQuotation` | src/compile-word.asm:957-1034 | after patching, the bytes are the assembly of the finished listing, and the compiler comes through whenever that listing is encodable |
| `Compiler.Compile` | src/compile-word.asm:957-1034 | the same without knowing the epilog's address beforehand |
| `Disassembler.EncodedIsFound` | src/disassembler.feline:212-233 | an emitted encoding in memory shows decode the opcode, prefix, ModRM and immediate bytes that it looks at |
| `Disassembler.Disassembler.DestRm` | src/disassembler.feline:322-379 | for the destination side the ModRM byte, with its SIB byte, displacement and the REX bits, gives back register and memory operand |
| `Disassembler.Disassembler.SourceRm` | src/disassembler.feline:422-485 | the same for the source side |
| `Disassembler.Disassembler.SibSpells` | src/disassembler.feline:212-318 | a REX prefix and a SIB byte spell reg field, index, base and scale, whichever of the sixteen registers they are |
| `Disassembler.Disassembler.PlainSpells` | src/disassembler.feline:236-319 | without a REX prefix the fields are the registers, and operands have 32 bits, or 16 behind the operand size prefix |
| `Disassembler.Disassembler.Shows` | src/disassembler.feline:178-210 | what a line shows, by what has been read: a jump target alone, or up to two operands, the first taking the memory operand |
| `Disassembler.Disassembler.Decode` | src/disassembler.feline:1958-1977 | decoding what the compiler emitted recovers operation and operands and advances ip by exactly the emitted length |
| `Disassembler.Disassembler.Disassemble` | src/disassembler.feline:1986-2000 | walking assembled code visits exactly its instructions, in order, and stops at its end |
| `Disassembler.MeaningDetermines` | src/disassembler.feline:204-210 | what a line shows and its length determine the instruction |
| `Listings.AluNames` | src/disassembler.feline:404-411 | the operations of the immediate group are shown by number as add, or, adc, sbb, and, sub, xor, cmp |
| `Listings.LineExecutes` | src/disassembler.feline:204-210 | whatever the instruction, carrying out what its line says, by mnemonic and operands, does to the machine what executing the instruction does |
| `Listings.ListingExecutes` | src/disassembler.feline:1986-2000 | standing at a listed line, the machine's next step is what the line says, from the start of the line after it |
| `Compiler.LoadedIsWritten` | src/disassembler.feline:1986-2000 | compiled bytes in memory are encodings one behind the other |
| `Compiler.List` | src/disassembler.feline:1986-2000 | disassembling compiled code lists exactly the instructions that were compiled |
| `Targets.WhileClosed` | src/compiler.feline:275-306 | the loop's jump back goes to its first instruction and its exit to its end |
| `Targets.CondClosed` | src/compiler.feline:611-663 | each failing test lands on the next clause and all exits of cond meet at its end |
| `Targets.MatchClosed` | src/compiler.feline:676-738 | the same for match*, with or without a default |
| `Targets.FinishedClosed` | src/compile-word.asm:881-909 | in finished code every jump, the patched ones included, lands on the start of one of its own instructions or on its end |
| `ControlFlow.ControlStays` | src/compile-word.asm:881-909 | from the start of an instruction of finished code every step that is no call or return leads to the start of one, or to its end |
| `Compiler.BranchesAreListed` | src/disassembler.feline:1986-2000 | every branch in the disassembly of compiled code goes to a listed line or to the end |
| `Worklist.ContainedIsGathered` | src/compile-word.asm:1069-1105 | every quotation nested anywhere inside is gathered |
| `Worklist.PreorderIff` | src/compile-word.asm:1069-1105 | what is gathered is the quotation itself and exactly the quotations nested in it |
| `Worklist.PreorderFollows` | src/compile-word.asm:1078-1105 | in the gathered order the quotations inside one always come after it |
| `Worklist.ReversedIsReady` | src/compile-word.asm:1123-1135 | in the reversed order each quotation comes after all quotations inside it |
| `Worklist.Compiler.BuildWorklist` | src/compile-word.asm:1108-1120 | the worklist is the preorder of the definition |
| `Worklist.Compiler.ProcessWorklist` | src/compile-word.asm:1123-1135 | each quotation is compiled only once all quotations inside it have been, and all of them before the definition |
| `Hashtable.PowerOfTwoIff` | src/equal-hashtable.asm:99-111 | the capacities there are, which start at a power of two and double, are exactly the powers of two |
| `Hashtable.HomeIsMasked` | src/equal-hashtable.asm:186-194 | the entry where a search starts is the key's tagged word, as 64 bits, under the mask, for every capacity that is a power of two |
| `Hashtable.EmptyMeansAbsent` | src/equal-hashtable.asm:165-258 | an empty entry where the probe ends shows that the key is nowhere in the table, across wrap-around and tombstones |
| `Hashtable.InsertSound` | src/equal-hashtable.asm:322-389 | a key stored in that entry keeps every other key reachable and makes the table stand for the updated map |
| `Hashtable.ReplaceSound` | src/equal-hashtable.asm:379-389 | a found key's value is replaced and nothing else |
| `Hashtable.DeleteSound` | src/equal-hashtable.asm:262-319 | a tombstone removes the key and keeps every other key reachable |
| `Hashtable.EntriesAll` | src/equal-hashtable.asm:465-522 | the live entries together are the whole map |
| `Hashtable.Table.Probe` | src/equal-hashtable.asm:322-371 | both probe loops end, the second without a sentinel, and find the key exactly when it is in the map |
| `Hashtable.Table.Get` | src/equal-hashtable.asm:165-258 | lookup gives the value the map has for the key, or nil |
| `Hashtable.Table.PutInternal` | src/equal-hashtable.asm:322-389 | the map is updated and the occupancy counts the entries in use |
| `Hashtable.Table.Remove` | src/equal-hashtable.asm:262-319 | the map loses the key; occupancy stays, deletions count |
| `Hashtable.Table.Put` | src/equal-hashtable.asm:393-413 | after any put the table is at most half full, tombstones counted, from capacity 1 on; it doubles exactly when the entries in use have reached half the capacity, and then only live ones are left |
| `Hashtable.Table.Grow` | src/equal-hashtable.asm:465-522 | rehashing into twice the capacity keeps the map, drops the tombstones and always finds an empty entry |
| `Hashtable.Table.Run` | src/equal-hashtable.asm:393-413 | any sequence of put, remove and grow keeps the table in step with the map it stands for |
| `Hashtable.ReplayIsLastPut` | src/equal-hashtable.asm:165-258 | a key has a value after a sequence exactly when that was the last value put for it and not since removed |
| `Random.MixIsBijective` | src/random.c:25-31 | splitmix64's output map is a bijection on 64-bit words |
| `Random.StepIsBijective` | src/random.c:40-56 | the xoroshiro128+ step is a bijection on pairs of words |
| `Random.SeededIsAlive` | src/random.c:60-65 | no seed gives two zero words |
| `Random.RunsNeverMerge` | src/random.c:45-56 | two states equal after the same number of steps were equal from the start |
| `Random.NeverDies` | src/random.c:45-70 | from any seed no number of calls reaches the all-zero state |
| `Random.SeedsStayApart` | src/random.c:60-65 | different seeds never fall into step |
| `Random.MixSteps` | src/random.c:25-31 | the output map, step by step, with the constants and shifts of the source |
| `Random.StepIs` | src/random.c:45-53 | the step of the two words with the rotations and shifts of the source |
| `Random.SeededWith1234567` | src/random.c:60-70 | the first state and the first two numbers from one seed |
| `Random.Generator.Seed` | src/random.c:60-65 | seeding leaves the counter two increments on and the words at the outputs of the two counts |
| `Random.Generator.Next` | src/random.c:45-56 | a call returns the sum of the two words, renews them by the written-out rotations and shifts, and never leaves both zero |
| `Control.SkipItems` | src/control.feline:31-45 | skipping well-nested items ends at the level it began with, less one for each #ifdef or #ifndef inside, which are not counted while their #endif is |
| `Control.AnyTokenIsAName` | src/control.feline:64-72 | the token behind #ifdef or #ifndef is the name, whatever token it is, by its text |
| `Control.StreamEnds` | src/control.feline:31-72 | reading fails where the stream ends before a name or inside a skip, and only there |
| `Control.SkippedWholeIff` | src/control.feline:31-45 | from level 1, where skipping starts, a branch is skipped whole whatever follows exactly when it has no #ifdef or #ifndef inside; any other branch resumes reading at one of its own tokens, whatever follows |
| `Control.ReadsPassed` | src/control.feline:31-62 | for every tree, clean or not, and from every level: the words that get through, and the level that reading goes on with behind the tree |
| `Control.ReadsOn` | src/control.feline:43-62 | a tree met while reading is left reading again, so a skip that ends early does no harm behind the tree's own #endif |
| `Control.UnwantedBranchReadIff` | src/control.feline:31-62 | an unwanted branch that ends in a word is read as nothing exactly when it has no #ifdef or #ifndef; otherwise its last word gets through |
| `Control.IfdefInsideSkippedBranch` | src/control.feline:64-72 | an input where an #ifdef in a skipped branch lets a word through that no test selects |
| `Control.ReadsSelected` | src/control.feline:43-62 | for any tree whose skipped branches have no #ifdef or #ifndef, at any depth, the words that get through are exactly those of the branches the tests select |
| `Control.NoNameTestsClean` | src/control.feline:31-45 | without #ifdef and #ifndef every tree is such a tree |
| `Control.Reader.StartIgnoring` | src/control.feline:43-45 | the loop consumes tokens up to where the level is 0 again, or to the end of the stream |
| `Control.Reader.ReadAll` | src/control.feline:43-72 | reading a stream lets through exactly the words that the specification gives |
| `Control.Reader.ReadTree` | src/control.feline:43-72 | a file flattened from any tree is read to its end with the ignore level back at 0; from a clean tree the selected words get through |
| `Columns.NextColumnIs` | feral/feral-core.feline:743-758 | a tab leads to the first multiple of the tab width past its column, any other character one column on |
| `Columns.LineOffsetColumn` | feral/feral-core.feline:760-772 | the column of an offset, offsets past the end counting as the end |
| `Columns.LineColumnOffset` | feral/feral-core.feline:776-794 | the least offset whose column reaches the one asked for, or the line's length |
| `Columns.ColumnGivesBackOffset` | feral/feral-core.feline:760-794 | going from an offset to its column and back gives the offset, for every line and tab width |
| `Columns.RoundTrip` | feral/feral-core.feline:760-794 | the same for the two loops run one after the other |
| `Columns.Detab` | feral/feral-core.feline:743-758 | every character other than a tab stands at exactly its column, a tab's columns are spaces, and the length is the end column |
| `Columns.ExpansionIsUnique` | feral/feral-core.feline:743-758 | there is only one such expansion and no tab is left in it |
| `Splice.RegionBetween` | feral/feral-core.feline:280-306 | region-as-string is exactly the text between the ends of the region |
| `Splice.DeleteTakesRegion` | feral/edit.feline:22-45 | deleting a region removes exactly what region-as-string returns |
| `Splice.JoinDeletes` | feral/edit.feline:351-358 | deleting the separator at dot removes exactly that separator from the text, right behind dot |
| `Splice.SidesDetermine` | feral/feral-core.feline:280-306 | the texts before and after a position determine the lines and the position |
| `Splice.InsertStringInserts` | feral/feral-core.feline:839-885 | an insertion puts the string, with each carriage return before a line feed dropped, at dot and leaves dot after it |
| `Splice.InsertsExactlyIff` | feral/feral-core.feline:856-885 | exactly the string is inserted if and only if it has no carriage return right before a line feed |
| `Splice.CRLFIsNotInsertedExactly` | feral/feral-core.feline:856-885 | an input where less than the string is inserted |
| `Splice.ReinsertedIff` | feral/undo.feline:352-361 | a deleted region reinserted gives the original lines exactly when the region has no carriage return right before a line feed |
| `EditTexts.LineEditText` | feral/undo.feline:137-142 | a line edit replaces the text of dot's whole line, with the part up to the new offset before dot |
| `EditTexts.SeparatorText` | feral/edit.feline:351-358 | deleting a separator takes out exactly the line feed behind dot, and does nothing when there is none |
| `EditTexts.DeletedText` | feral/edit.feline:22-48 | deleting a region takes out exactly what stands between dot and mark, whichever comes first, and unmarks |
| `EditTexts.InsertedText` | feral/feral-core.feline:856-873 | inserting lines puts the string, without each carriage return before a line feed, at dot |
| `EditTexts.EditText` | feral/edit.feline:22-56 | each of the six recorded edits, by the text on either side of dot before and after it |
| `Editing.MultilineGrows` | feral/feral-core.feline:856-873 | an insertion of lines touches dot's line only: those before and after stay, and dot ends on the last new line |
| `Undoing.MoveLinks` | feral/undo.feline:118-135 | a recorded move is undone exactly, mark included, and redone exactly, leaving the same record |
| `Undoing.LineEditLinks` | feral/undo.feline:137-157 | the same for a line edit |
| `Undoing.InsertSeparatorLinks` | feral/undo.feline:250-269 | the same for a separator insertion, which redo does over again |
| `Undoing.DeleteSeparatorLinks` | feral/undo.feline:227-248 | the same for a separator deletion |
| `Undoing.InsertLinesLinks` | feral/undo.feline:271-303 | the same for an insertion of lines, which undo takes out from the restored dot to the dot it left |
| `Undoing.UndoIsSound` | feral/undo.feline:363-376 | undo leaves dot and mark on listed lines, dot at a legal offset |
| `History.DeleteLinesUndoneIff` | feral/undo.feline:335-361 | undo of a deletion over several lines gives the buffer back exactly when the region has no carriage return right before a line feed |
| `History.EditLinks` | feral/undo.feline:128-361 | every edit that is reversible is undone exactly by its record, and redo then brings it back |
| `History.RedoOfEditIff` | feral/edit.feline:742-764 | the redo record that undoing any edit leaves brings the edit back, buffer and undo record, from exactly one clean buffer: the one the edit was made in, text, dot and mark |
| `History.RedoEntryIff` | feral/edit.feline:766-778 | the same for an entry of the redo stack, a single record or a compound |
| `History.CompoundSwaps` | feral/undo.feline:54-76 | undoing a compound from its last record gives a compound whose redo brings everything back |
| `History.PerformThenUndo` | feral/undo.feline:378-388 | one undo takes back any command, recorded singly or in a compound |
| `History.UndoThenRedo` | feral/edit.feline:766-778 | a redo right after an undo gives back text, dot, mark and both stacks |
| `History.RedoThenUndo` | feral/undo.feline:378-388 | an undo right after a redo does the same |
| `History.RunKeepsOrigin` | feral/undo.feline:378-388 | no command, undo or redo in a session changes where undoing everything leads |
| `History.RunKeepsClean` | feral/feral-core.feline:856-873 | whatever runs in a session, no line comes to hold a line separator |
| `History.WholeSession` | feral/undo.feline:378-388 | after any run of commands, undos and redos, undoing all that is on the stack gives the original lines, dot and mark, and as many redos give back the session |
| `Sessions.PerformText` | feral/undo.feline:54-76 | a single edit performed does that to the text, pushes at most one entry, none only when it changes nothing, and leaves nothing to redo |
| `Sessions.CompoundIsSequence` | feral/undo.feline:54-76 | a compound performs its edits in order and is one entry to undo |
| `Sessions.ReversibleEdits` | feral/undo.feline:118-361 | in a buffer without carriage returns every edit at positions on lines can be undone, if it leaves no line feed in a line and does not join away the mark's line |
| `Sessions.RunLast` | feral/undo.feline:378-388 | a run with one more event is the run and then the event |
| `Sessions.RunsCompose` | feral/undo.feline:378-388 | two runs one after the other are one run |
| `Sessions.UndoRedoCancel` | feral/undo.feline:378-388 | after any run, undo and redo cancel, and so do redo and undo, stacks included |
| `Sessions.DoUndoCancel` | feral/undo.feline:378-388 | after any run, a command and an undo leave buffer and undo stack as they were |
| `Keeping.WalkKeepsOrigin` | feral/undo.feline:378-388 | for any run of commands and undos, whether a command empties the redo stack or leaves stale records on it, undoing everything leads to the buffer at the beginning |
| `Keeping.RedoAfterKeepingIff` | feral/move.feline:145-172 | after any commands that leave the redo stack alone, in any consistent session, the next redo does what it would have done before them, buffer and undo entry, exactly when they left the buffer, text, dot and mark, as it was |
| `Keeping.RedoAfterMoveLosesText` | feral/edit.feline:86-104 | a session where it does not: newline-and-indent, undo, a move to the left and redo, and a letter is gone |
| `Sessions.WalkLast` | feral/undo.feline:378-388 | a walk with one more step is the walk and then the command, its redo stack emptied or kept, or the undo |
| `Sessions.KeepAllLast` | feral/undo.feline:378-388 | commands that keep the redo stack are performed in order |
| `Pasting.PasteLinesInserts` | feral/edit.feline:675-691 | pasting whole lines puts them above dot's line and leaves dot on its text at its offset |
| `Pasting.PasteIsCommand` | feral/edit.feline:716-724 | any paste that nests no compound is a command that one undo takes back |
| `Pasting.PasteText` | feral/edit.feline:667-724 | after any paste the string, without each carriage return before a line feed, stands in place of the region, or at dot, or, if it is one of whole lines, where dot's line begins |
| `LineDeletion.DeleteLineUndoneIff` | feral/undo.feline:318-333 | undo of a line deletion gives the buffer back exactly when the line was not the last but one, or had the last line's text |
| `LineDeletion.DeleteLineText` | feral/edit.feline:597-637 | the line goes with the separator behind it, or before it if it is the last, and dot stands where they were |
| `LineDeletion.UndoDeleteLineText` | feral/undo.feline:318-333 | undo puts the text in as a line above dot's, or behind everything when dot is on the last line |
| `LineDeletion.DeleteLineAgain` | feral/edit.feline:748-750 | where it does, deleting the line again leads to the same buffer |
| `EditorBuffer.Buffer.Renumber` | feral/feral-core.feline:606-615 | numbers run 0 to n - 1 in order and the last line is the final one; lines, dot and mark are as before |
| `EditorBuffer.Buffer.NthLine` | feral/feral-core.feline:658-670 | the line with a number, or nil outside the buffer |
| `EditorBuffer.Buffer.InsertAfter` | feral/feral-core.feline:672-686 | the list gains the line right after the given one, prev and next inverse throughout |
| `EditorBuffer.Buffer.InsertFirst` | feral/feral-core.feline:672-686 | with no line to go in after, the new line becomes the first and the top one |
| `EditorBuffer.Buffer.Unlink` | feral/feral-core.feline:701-712 | the list loses exactly the line, which keeps its number, and is renumbered |
| `EditorBuffer.Buffer.InsertLineSeparatorInternal` | feral/feral-core.feline:844-854 | dot's line is split over the list and dot moves to the new line |
| `EditorBuffer.Buffer.InsertMultilineStringInternal` | feral/feral-core.feline:856-873 | the loop over the string's lines leaves the buffer that the value model gives |
| `EditorBuffer.Buffer.InsertString` | feral/feral-core.feline:875-885 | either way of inserting leaves the buffer that the value model gives |
| `EditorBuffer.Buffer.MakeRegion` | feral/feral-core.feline:186-193 | the ends of the region in order, by line number and then offset |
| `EditorBuffer.Buffer.RegionAsString` | feral/feral-core.feline:280-306 | the loop over the lines gives the region string |
| `EditorBuffer.Buffer.CutRegion` | feral/edit.feline:22-45 | the region is gone, dot is at its begin and the mark off; a top line cut with it keeps a number above dot's |
| `EditorBuffer.Buffer.Reframe` | feral/feral-core.feline:893-901 | the top line becomes a listed one, half a window above dot or the first |
| `EditorBuffer.Buffer.MaybeReframe` | feral/feral-core.feline:887-903 | a top line that was unlinked with a number above dot's is replaced by a listed one; afterwards the window does not start below dot |
| `EditorBuffer.Buffer.MoveTo` | feral/undo.feline:118-121 | dot and mark move and the record of where they were is pushed |
| `EditorBuffer.Buffer.EditLine` | feral/undo.feline:137-142 | dot's line has the new text and the record of the old is pushed |
| `EditorBuffer.Buffer.InsertLineSeparator` | feral/edit.feline:50-56 | the edit and its record, on the list |
| `EditorBuffer.Buffer.DeleteLineSeparator` | feral/edit.feline:351-358 | the same; nothing happens unless dot is at the end of a line that has a next one, and a listed top line stays listed exactly when it is not the line that goes |
| `EditorBuffer.Buffer.InsertMultilineString` | feral/edit.feline:449-452 | the same for an insertion of lines |
| `EditorBuffer.Buffer.DeleteRegion` | feral/edit.feline:22-48 | the same for a region deletion, recorded as a line edit within one line; a top line that was cut with it is replaced |
| `EditorBuffer.Buffer.UndoMove` | feral/undo.feline:128-135 | restores dot and mark, leaving a record for the opposite direction |
| `EditorBuffer.Buffer.UndoLineEdit` | feral/undo.feline:146-157 | restores the line, dot and mark likewise |
| `EditorBuffer.Buffer.UndoDeleteLineSeparator` | feral/undo.feline:238-248 | splits the line again by a new list line |
| `EditorBuffer.Buffer.UndoInsertLineSeparator` | feral/undo.feline:261-269 | unlinks the line below the restored dot and restores the text |
| `EditorBuffer.Buffer.UndoInsertMultilineString` | feral/undo.feline:284-303 | skips the lines from the restored dot to where the insertion left dot |
| `EditorBuffer.Buffer.UndoDeleteRegion` | feral/undo.feline:352-361 | reinserts the region at dot and restores dot and mark |
| `EditorBuffer.Buffer.Undo1` | feral/undo.feline:363-376 | each record's inverse as the value model gives it, on a valid list, with the window brought along |
| `EditorBuffer.Buffer.Undo` | feral/undo.feline:378-388 | single records and compounds: the whole session moves as the value model says |
| `EditorBuffer.Buffer.Redo1` | feral/edit.feline:752-764 | moves and line edits swap, the other edits are done over again |
| `EditorBuffer.Buffer.Redo` | feral/edit.feline:766-778 | the whole session moves as the value model says |
| `EditorBuffer.Buffer.PasteWholeLines` | feral/edit.feline:675-691 | whole lines go in through a move to the line's start, the insertion and a move back, in one compound |
| `EditorBuffer.Buffer.PasteString` | feral/edit.feline:667-724 | pasting any string, as a line edit, an insertion, whole lines or over a region, is one command of the session, and leaves the string in the text where the region, dot or the start of dot's line was |
| `EditorBuffer.Buffer.Perform` | feral/undo.feline:54-76 | any command that empties the redo stack, single or compound, moves the whole session as the value model says |
| `EditorBuffer.Buffer.Run` | feral/undo.feline:378-388 | after any run of commands, undos and redos on the list, lines chained and numbered, the buffer and both stacks are what the value session says |

## Left out

Compiler:

- Emitter.Emitter.CompileCallAddress: gives up on a call whose displacement does not fit in 32 bits, where the compiler writes a longer form (src/compile-word.asm:425-473), so every call has five bytes.
- Emitter.Emitter.CompileOne: refuses `unless` without a literal, whose fallback hands a symbol to compile-call-address (src/compiler.feline:185).
- Emitter.Emitter.CompileTwo: refuses `and*` and `or*` without two literal quotations, whose fallbacks leave the queue unflushed or hand a symbol to compile-call-address (src/compiler.feline:65-71, 245-251).
- Emitter.Emitter.CompileReturnLocals: refuses `?return` without a literal, whose fallback calls ?return as a word, which cannot leave the body it is called from.
- Emitter.Emitter.CompileKeep: calls a lone word where the compiler may copy its code in line, and refuses a literal symbol, for which src/compiler.feline:361 takes the wrong value off the stack.
- Emitter.Emitter.CompileCond: refuses an empty array, which the compiler makes a call of cond; the flat form of cond is left out as well.
- Emitter.Emitter.CompileMatch: refuses an empty array and one of odd length, which the compiler makes a call of match*.
- Emitter.Emitter.CompileOperator: shares these refusals.
- Clauses.SimMatch: asks that compiler and interpreter read the array alike; for other arrays `Clauses.RunChosen` says what the code does and `Choices.ChoicesDiffer` that it is not what match* means.
- Correctness.SimOperator: asks for what the compiler does not check (`Correctness.OpSound`), with the exact conditions named above.
- CompilerTheorem.SimOp: asks for the same, operator by operator.
- CompilerTheorem.SimElems: asks for the same throughout the body.
- Words.SimFramedWord: asks for the same of the word's body.
- Calls.QuotationCorrect: asks for the same of all loaded code.
- Calls.WordCorrect: asks for the same of all loaded code.
- Calls.CompiledBytesCorrect: asks for the same of all loaded code.
- Calls.CompiledWordCorrect: asks for the same of all loaded code.
- Inlined copies of other words' code, which the model treats as calls, type-directed dispatch, symbol values and character codes.
- Code allocation, code size estimates, deferred compilation, garbage collection and locks: not part of this model.
- Stack overflow, address wrap-around, and interrupts.
- Interpreted words outside the expanded set: their effect is a parameter.
- Disassembler output formatting, and the opcodes that the compiler never emits.
- Worklist.Compiler.PrimitiveCompileQuotation: only records that a quotation has been compiled; its bytes are the business of `Compiler.Compile`.

Tables and generator:

- Hash keys other than fixnums, equality of other objects, and the memory of old bucket arrays.
- The floating-point and string-conversion wrappers.

Conditional compilation:

- Control.ReadsSelected: asks that skipped branches have no #ifdef or #ifndef, because those are not counted while skipping; what is read of other trees is in `Control.ReadsPassed`.
- Streams that are not flattened from a tree.
- How the flag on the stack comes about: it is part of the token in the model.

Editor:

- History.WholeSession: its commands empty the redo stack first, as newline, character insertion and pasting do; for those that leave it alone `Keeping.WalkKeepsOrigin` has the undo half and `Keeping.RedoAfterKeepingIff` says when redo still works.
- EditorBuffer.Buffer.PasteString: asks that a string of whole lines is not pasted over a region, because that records a compound inside a compound (feral/edit.feline:675-691, 716-724), which undo1 cannot take (feral/undo.feline:363-376).
- EditorBuffer.Buffer.InsertAfter: takes a listed line to go in after; a nil one is `EditorBuffer.Buffer.InsertFirst`, in a buffer that has lines.
- EditorBuffer.Buffer.Unlink: not for the first line, whose removal leaves the list without its head until the caller mends it, nor for lines that hold dot or mark.
- EditorBuffer.Buffer.DeleteLineSeparator: not with the mark on the line that goes, which would leave the mark on an unlisted line.
- EditorBuffer.Buffer.Perform: a driver for the edits of a command, which the editor's own commands call one by one; MoveTo brings the window along after every move.
- Modification counts: redo of a separator deletion leaves the count of the state before, so the count says nothing about the text.
- Redo of a line deletion records nothing for undo (feral/edit.feline:748-750), so line deletions are not among the edits of a session; deleting the only line of a buffer is left out as well.
- Region edits line by line, which save all lines but the last (feral/undo.feline:159-173).
- Display, key maps, minibuffer, files, syntax colouring and search.
