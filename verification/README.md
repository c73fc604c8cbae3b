# Mort compiler: verified models

Dafny models of the passes and protocols of the Mort toolchain, and proofs about them. Mort programs
are type checked and translated to C; resources have one owner, are moved explicitly and destroyed
automatically when their scope is left.

**Cleanup lowering.** `MortSyntax` and `MortSemantics` give a statement language two semantics over
one machine state: the source semantics keeps the cleanup registered by each open scope and unwinds
it whenever a scope is left, the C semantics only runs the statements it is given. `CleanupLowering`
is the translation, `CodeGenerator` the imperative generator that appends its lines, and
`EmittedLines` shows that the lines determine the program. `TryProof`,
`UnwindingProof`, `CleanupProof`, `CleanupTheorem` and `FunctionTheorem` prove that both mean the
same; `LoweringLimits` and `InitializerScope` show where the code does not (a shadowed owner is
destroyed twice, a shadowing initializer reads its own variable, although the language specification
allows shadowing; a hoisted move overtakes a read) and exactly when.
`LowerableFragment` says which functions that covers, `RunTimeFacts` what the source semantics says
of ordinary programs. `ReturnFlow` is the return analysis, `ReturnWays` what it recognises.

**Ownership.** `MoveAnalysis` is the move checker as a function, `MoveChecker` the checker with its
snapshots as it runs. `MoveRules` and `MoveRoutes` say what it accepts: exactly the programs whose
every single route is fine. `OwnershipFacts`, `OwnershipCleanup`, `CheckerFacts`, `OwnershipProof`,
`OwnershipTheorem` and `ExactlyOnce` prove that accepted programs settle every resource exactly once,
by counting, for an arbitrary resource, where it is at every point of a run. Two families of accepted
programs that break the promise are given with the exact condition.

**Integers.** `FixedWidth`, `IntegerLowering` and `ConstantFolding`: the C operations behind Mort's
wrapping arithmetic, with undefined behaviour made explicit, and the constant folder; `ExactArithmetic`
says what the operators give, bit by bit and in the arithmetic of the integers. C is taken with
a 32-bit `int` and exact-width types (sections 6.3.1 and 6.5 of ISO/IEC 9899:2011).

**Text.** `Lexing`, `LexLocality`, `LexerMachine`, `Formatting`, `TokenPreservation`, `ContinuedLines`
and `BraceAgreement`: the formatter is idempotent, and exactly when it changes no token.
`TokenSpelling` says what the tokens of a text are, `Indentation` what formatted text looks like. Python's
character tables and its float range are parameters of which only the ASCII part is assumed.
`OperatorLadder` and `ExpressionParser`: exactly when the operator ladder inverts a printer;
`BindingLaws`: how tightly each operator binds.

**Types.** `AggregateTypes`, `AggregateCycles` and `DefinitionOrder`: cycle search and definition order;
`FiniteLayouts`: what they are for.
`DropSynthesis`: which types need a destructor and what the generated helpers do. `AliasResolution`
and `AliasMeaning`: type aliases.

**Stores and protocols.** `TlsCache` and `TlsProgress`: the lock file protocol as steps of any number
of processes. `Registry`, `RegistryAdmin` and `RegistryMeaning`: the authenticated package registry. Hashing is injective where a proof
needs it, a signature is what the key's signing function gives for a message. `SemVer` and `VersionMeaning`:
versions; a caret or tilde range also takes the prereleases of the version behind it. `MortFs` and
`ImageBytes`: the disk image writer.

Loops that may run for ever take an amount of fuel; every theorem is for any amount, and a run cut
off by it is one of the outcomes.

## Model

| member | source | states |
|---|---|---|
| EvaluationFacts.EvalInPrefix | mort/codegen.py:2084-2097 | evaluating an expression does not notice bindings declared later, as long as they reuse no name it mentions |
| UnwindingProof.CleanupInPlace | mort/codegen.py:2084-2097 | running the emitted cleanup of the scopes from k on, in place, does exactly what unwinding those scopes at run time does, and touches no temporary |
| TryProof.PrepareSound | mort/codegen.py:2347-2419 | the hoisted statements followed by the residual expression make the same calls in the same order and give the same value, or leave with the same first `Err` after unwinding every scope |
| TryProof.ShortCircuitSound | mort/codegen.py:2355-2378 | the temporary and the guarded block emitted for and-also and or-else evaluate the right operand exactly when the source does |
| TryProof.UnwrapSound | mort/codegen.py:2421-2443 | the tag test after a `try` operand goes on with the `Ok` payload or unwinds all scopes and returns the same `Err` |
| TryProof.ResidualStored | mort/codegen.py:2163-2174 | storing a prepared expression in a temporary keeps its value readable afterwards |
| CleanupProof.LetSound | mort/codegen.py:2123-2133 | a lowered `let` whose initializer, after hoisting, does not mention the variable declares the same binding, with its live flag beside it, and registers its cleanup |
| CleanupProof.ReturnSound | mort/codegen.py:2163-2174 | the value of a `return` is fixed before any cleanup runs, then every open scope is left in reverse order |
| CleanupProof.BreakSound | mort/codegen.py:2257-2262 | a lowered `break` or `continue` leaves exactly the scopes of its loop |
| CleanupProof.DeferSound | mort/codegen.py:2263-2275 | a `defer` emits nothing where it stands and registers its expression in the innermost scope |
| CleanupTheorem.IfSound | mort/codegen.py:2175-2191 | a lowered `if` with any chain of `else if` simulates the source |
| CleanupTheorem.WhileStmtSound | mort/codegen.py:2192-2209 | both loop shapes, with and without a `try` in the condition, simulate the source loop |
| CleanupTheorem.ForStmtSound | mort/codegen.py:2210-2247 | a lowered `for` evaluates each bound once and runs the same rounds, inclusive ranges included |
| CleanupTheorem.MatchSound | mort/codegen.py:2276-2325 | a lowered `match`, whose last arm is unconditional when the match is exhaustive, takes the arm the source takes, with the payload bound |
| CleanupTheorem.StmtTheorem | mort/codegen.py:2121-2325 | every lowerable statement, in every reachable pair of states and for any amount of fuel: same outcome, same trace, same bindings, cleanup done where the source unwinds |
| CleanupTheorem.StmtsTheorem | mort/codegen.py:2099-2104 | the same for statement lists, with the cleanup registered so far |
| CleanupTheorem.ScopeTheorem | mort/codegen.py:2099-2104 | a scope that is left in any way has run its cleanup exactly once in the generated code |
| CleanupTheorem.WhileTheorem | mort/codegen.py:2192-2209 | any number of rounds of a loop |
| CleanupTheorem.ForTheorem | mort/codegen.py:2210-2247 | any number of rounds of a range loop |
| CleanupTheorem.ArmsTheorem | mort/codegen.py:2286-2322 | any ladder of match arms |
| FunctionTheorem.LoweringPreservesMeaning | mort/codegen.py:2061-2104 | for every lowerable function, arguments, starting state and fuel, the generated function has the same outcome, returned value, event trace and final globals as the source semantics that unwinds scopes at run time, and reads no moved binding or variable without a value unless the source reads a moved binding |
| LowerableFragment.OrdinaryFunctionsAreLowerable | mort/codegen.py:2061-2104 | every function that the checker accepts, whose declarations take names not in use and whose `try`s can be hoisted, is lowerable, so that the theorem applies to it |
| RunTimeFacts.CallsInOrder | docs/language-specification.md:365-377 | evaluating an expression without short circuits makes exactly its calls, operands from left to right and arguments first |
| RunTimeFacts.RangeVisits | docs/language-specification.md:335-340 | a range loop runs its body once for each value from lo up to hi, hi itself only in an inclusive range, and not at all when there is none |
| RunTimeFacts.LoopAsks | docs/language-specification.md:330-334 | a `while` loop asks before every round and stops at the first zero; `continue` goes on like falling off the end of the body |
| RunTimeFacts.LoopBreaks | docs/language-specification.md:330-334 | `break` leaves in the first round |
| RunTimeFacts.DefersRunInReverse | docs/language-specification.md:354-357 | the deferred calls of a block run when it ends, the last one first |
| InitializerScope.DeclarationSoundIff | mort/codegen.py:2123-2133 | C has a variable in scope in its own initializer: for every initializer that the source evaluates without a fault, the generated declaration does what the source says if and only if what is left of the initializer does not come to use the variable |
| InitializerScope.SelfInitFaultsIff | mort/codegen.py:2123-2133 | in a function whose inner block shadows the parameter, the generated code uses the inner variable before it has a value if and only if the initializer comes to use the name (without short-circuit operators: if and only if it mentions it), and otherwise returns what the source returns |
| InitializerScope.SelfIncrement | docs/language-specification.md:300-303 | `let x = x + 1` over a parameter x is accepted and means n + 1; the generated code reads a variable without a value |
| LoweringLimits.CaptureIsExact | mort/codegen.py:2084-2097 | a registered cleanup still finds the bindings it was registered with if and only if no later binding reuses a name it mentions |
| LoweringLimits.ShadowingBreaksCleanup | docs/language-specification.md:300-303 | shadowing an owner, which the specification allows, makes the generated code differ from the source whenever the two owners hold different resources |
| LoweringLimits.ShadowedTarget | mort/codegen.py:2084-2097 | in that family the generated code destroys the inner owner twice and the outer one never |
| LoweringLimits.HoistingReordersCalls | mort/codegen.py:2355-2380 | without the effect condition hoisting a `try` reorders two calls: for any operator, arguments, replies and open scopes the source calls f first and the generated code g first |
| LoweringLimits.ReadThenMovedAccepted | mort/typechecker.py:1762-1790 | reading a resource and then moving it in the same expression is accepted |
| LoweringLimits.HoistedMoveFaultsIff | mort/codegen.py:2355-2380 | if the move is the operand of a `try`, the generated code hoists it and reads the moved resource if and only if the call succeeds |
| ReturnFlow.FlowSound | mort/typechecker.py:1167-1234 | a statement list the analysis says always returns never ends normally in any execution; an execution that breaks the enclosing loop does so where the analysis sees a break |
| ReturnFlow.FlowSoundWhile | mort/typechecker.py:1186-1192 | a `while true` without a break of its own never ends normally |
| ReturnFlow.FlowSoundArms | mort/typechecker.py:1182-1185 | an exhaustive match whose arms all return never ends normally |
| ReturnFlow.NeverFallsOff | mort/typechecker.py:1161-1164 | no call of an accepted non-void function falls off its end |
| ReturnWays.RecognisedIff | mort/typechecker.py:1167-1234 | the analysis says of a list that it always returns if and only if on every way through it, one branch or arm chosen at each fork, there is a `return` or a `while true` without a break of its own |
| ReturnWays.CoveredIff | mort/typechecker.py:1639-1647 | an enum match is let through exactly if every variant has an arm that takes it |
| CodeGenerator.Generator.EmitDeferScopes | mort/codegen.py:2084-2097 | appends exactly the lines of the cleanup of the scopes from `start` on |
| CodeGenerator.Generator.PrepareTryExpr | mort/codegen.py:2347-2419 | appends the hoisted statements of the specification and returns its residual expression |
| CodeGenerator.Generator.EmitTryUnwrap | mort/codegen.py:2421-2443 | appends the unwrap sequence and names its temporary |
| CodeGenerator.Generator.GenScopedStatements | mort/codegen.py:2099-2104 | appends a scope with its cleanup and leaves the scope stack as it was |
| CodeGenerator.Generator.GenLet | mort/codegen.py:2123-2133 | appends the lowered `let`, and registers its cleanup in the innermost scope only |
| CodeGenerator.Generator.GenReturn | mort/codegen.py:2163-2174 | appends the hoisted `try` code, the temporary that fixes the value, the cleanup of every open scope and the `return` |
| CodeGenerator.Generator.GenIf | mort/codegen.py:2175-2191 | appends the lowered `if` with its scoped branches, the hoisted condition first |
| CodeGenerator.Generator.GenWhile | mort/codegen.py:2192-2209 | appends the lowered loop; the stacks of scopes and loop bases are restored |
| CodeGenerator.Generator.GenFor | mort/codegen.py:2210-2247 | appends the lowered range loop; the stacks are restored |
| CodeGenerator.Generator.GenMatch | mort/codegen.py:2276-2325 | appends the lowered match, binders registered in the scope of their arm |
| CodeGenerator.Generator.GenStmt | mort/codegen.py:2121-2325 | appends exactly the lines of the specification for any statement, with its counters and scopes |
| CodeGenerator.Generator.GenFn | mort/codegen.py:2061-2082 | the lines of a whole function are those the meaning theorem speaks about |
| EmittedLines.ReadsBack | mort/codegen.py:2175-2325 | reading the emitted lines as C blocks gives the code back, up to the spelling of ladders |
| EmittedLines.LinesDetermineMeaning | mort/codegen.py:2121-2325 | two programs with the same lines do the same, in every state |
| EmittedLines.GeneratedLinesMean | mort/codegen.py:2061-2104 | the lines emitted for a lowerable function, read back and run, do what the source function does |
| MoveAnalysis.Lookup | mort/typechecker.py:965-970 | gives the innermost binding of a name, and nothing if there is none |
| MoveRules.ExprAcceptedIff | mort/typechecker.py:1762-1790 | an expression is accepted exactly if it is well shaped and every use of a name, in evaluation order, is fine by what the innermost binding of that name is; exactly what was given away is marked |
| MoveRules.MoveAcceptedIff | mort/typechecker.py:1762-1790 | a move is accepted exactly if the innermost binding of the name is an owner that has not been moved and was declared at this loop depth or further in; its flag is set and no other |
| MoveRoutes.StmtAcceptedIff | mort/typechecker.py:1347-1638 | a statement is accepted exactly if each of its routes, one branch or arm at a time and every loop body once, is fine by itself, without snapshots and merging; the checker goes on from the join of the routes that get through |
| MoveRoutes.FunctionAcceptedIff | mort/typechecker.py:1149-1166 | the same for functions: merging the branches costs the checker no precision |
| MoveRoutes.MovedIffSomeRoute | mort/typechecker.py:983-991 | behind a statement list a binding counts as moved exactly if some route to its end moves it |
| MoveRoutes.OwnInLoopAccepted | mort/typechecker.py:1782-1787 | a loop body that makes a resource and moves it is accepted at every depth, whatever the bindings |
| MoveRoutes.ConsumingMatchAccepted | mort/typechecker.py:1516-1638 | a match that moves an owning enum and in its arms consumes every payload is accepted at every depth, and moves the enum and nothing else |
| MoveRoutes.OwningArmIff | mort/typechecker.py:1516-1600 | the arms of such a match name a variant each, and bind its payload, as an owner, exactly if there is one |
| MoveRoutes.OuterInLoopRejected | mort/typechecker.py:1782-1787 | a loop body that moves a resource from outside the loop is refused |
| CheckerFacts.JoinIsExact | mort/typechecker.py:1423-1453 | after an `if`, a binding counts as moved exactly if a branch that can fall through may have moved it |
| CheckerFacts.CheckStmtGrows | mort/typechecker.py:1347-1502 | checking a statement only ever marks more bindings as moved, and inside a loop none declared outside it |
| CheckerFacts.LoopMovesNothing | mort/typechecker.py:1782-1787 | the loop-depth rule: one check of a loop body leaves the state of every outer binding as it was |
| OwnershipFacts.EvalOwns | mort/typechecker.py:1762-1790 | evaluating an accepted expression keeps unmoved bindings live, reads no moved one, and neither loses nor duplicates a resource |
| OwnershipFacts.MoveOwns | mort/codegen.py:2499-2508 | `move x` hands over what x holds and clears its live flag |
| OwnershipCleanup.ExitOwns | mort/codegen.py:2084-2097 | leaving a scope destroys exactly what its own bindings still hold, once each |
| OwnershipTheorem.StmtOwns | mort/typechecker.py:1347-1638 | every accepted statement, however it ends, keeps the ledger of resources and what the checker knows of every binding |
| OwnershipTheorem.IfOwns | mort/typechecker.py:1423-1453 | the same across the merge of two branches |
| OwnershipTheorem.WhileOwns | mort/typechecker.py:1455-1462 | the same over any number of rounds |
| OwnershipTheorem.ArmsOwns | mort/typechecker.py:1516-1638 | the same across match arms, with the payload changing hands |
| ExactlyOnce.CallsSettleOwnership | docs/language-specification.md:461-483 | for every accepted function of the fragment, any arguments, environment and fuel: each resource passed in or created is destroyed, handed to a callee or returned exactly once; at any cut-off point the rest is held by exactly the live bindings; no moved binding is read |
| ExactlyOnce.GeneratedCodeSettlesOwnership | mort/codegen.py:2061-2133 | the same for the generated C code of a lowerable function, reads of moved bindings and of variables without a value included |
| ExactlyOnce.DrainAccepted | mort/typechecker.py:1455-1462 | a `while` condition may move a resource: it is checked before the loop depth rises |
| ExactlyOnce.DrainSettlesIff | mort/typechecker.py:1455-1462 | such a loop settles ownership if and only if its condition is evaluated once |
| ExactlyOnce.LateReadAccepted | mort/typechecker.py:1658-1667 | a deferred read of a binding that is moved later is accepted |
| ExactlyOnce.LateReadFaultsIff | mort/codegen.py:2263-2275 | it reads the moved resource if and only if the branch that moves it is taken |
| MoveChecker.Checker.Snapshot | mort/typechecker.py:972-976 | the moved flags of all bindings in scope |
| MoveChecker.Checker.Restore | mort/typechecker.py:978-981 | puts the flags back and changes nothing else |
| MoveChecker.Checker.MergeSnapshots | mort/typechecker.py:983-991 | a binding is moved if any of the merged snapshots says so |
| MoveChecker.Checker.Declare | mort/typechecker.py:952-963 | adds a binding at the current loop depth, or refuses a second one in the same scope |
| MoveChecker.Checker.MoveOut | mort/typechecker.py:1762-1790 | accepted exactly if the innermost binding of the name is an owner that is not moved and was declared at least at the current loop depth; then exactly its flag is set |
| MoveChecker.Checker.CheckIf | mort/typechecker.py:1423-1453 | snapshots around both branches end in the joined state of the specification |
| MoveChecker.Checker.CheckEveryArm | mort/typechecker.py:1516-1638 | every arm starts from the state before the match; the arms that fall through are merged |
| MoveChecker.Checker.CheckStatement | mort/typechecker.py:1347-1638 | the in-place analysis accepts exactly what the specification accepts and ends in its state; MoveRoutes says what that is |
| MoveChecker.FoldFlag | mort/typechecker.py:983-991 | the merge of any number of arm states holds a binding as moved exactly if one of them does |
| FixedWidth.TruncationIsExact | mort/typechecker.py:81-90 | quotient and remainder as C defines them: remainder with the sign of the dividend and smaller than the divisor |
| FixedWidth.CongruentBits | mort/codegen.py:356-364 | the low bits of bitwise and, or and exclusive or depend only on the low bits of the operands |
| ExactArithmetic.BitwiseBits | mort/typechecker.py:1285-1291 | every bit of the bitwise and, or and exclusive or by the bits of the operands |
| ExactArithmetic.BitsDetermine | mort/typechecker.py:1285-1291 | a number is determined by its bits |
| ExactArithmetic.SumOfBits | mort/typechecker.py:1285-1291 | a + b is the exclusive or plus twice the and, for all integers |
| IntegerLowering.WrapHelperCorrect | mort/codegen.py:477-489 | the emitted wrap helper turns any unsigned pattern into the congruent signed value without an out-of-range conversion |
| IntegerLowering.BinaryCorrect | mort/codegen.py:356-364 | addition, subtraction, multiplication and the bitwise operators give the exact result wrapped, for all operands of all eight types, with no undefined step |
| IntegerLowering.NegateCorrect | mort/codegen.py:347-354 | unary minus is the exact negation wrapped, for every operand of all eight types |
| IntegerLowering.ComplementCorrect | mort/codegen.py:347-354 | `~` is the exact complement wrapped, for every operand of all eight types |
| IntegerLowering.DivisionCorrect | mort/codegen.py:578-605 | `/` and `%` stop on a zero divisor and otherwise give wrapped truncating division, the most negative value by -1 included |
| IntegerLowering.ShlCorrect | mort/codegen.py:542-551 | `<<` is v * 2^count wrapped, for every 64-bit count |
| IntegerLowering.ShrCorrect | mort/codegen.py:552-577 | `>>` is floor(v / 2^count), for every 64-bit count and negative values |
| IntegerLowering.MaskRuns | mort/codegen.py:560-565 | the int-typed shift of UINT8_MAX and UINT16_MAX in the sign fill stays inside int |
| IntegerLowering.ShiftsCorrect | mort/codegen.py:375-388 | the emitted shifts with a count of any type: negative counts stop the program |
| ExactArithmetic.SumsMean | mort/codegen.py:347-364 | the emitted + - * and unary - and ~ give the value of the type that differs from the integer result by a multiple of 2^bits |
| ExactArithmetic.QuotientsMean | mort/codegen.py:578-605 | the emitted / and % give, wrapped, the q and m with a = q * b + m, m smaller than b and of the sign of a; a zero divisor stops the program |
| ExactArithmetic.BitsMean | mort/codegen.py:356-364 | the emitted bitwise operators at every bit of the type |
| ExactArithmetic.ShiftsMean | mort/codegen.py:375-388 | the emitted shifts multiply and wrap, or divide and round down; a negative count stops the program |
| ExactArithmetic.IntArithmetic | mort/codegen.py:356-364 | plain C arithmetic on ints is defined exactly where the result is an int, which is why the generator does not use it |
| ConstantFolding.FoldAgreesWithRuntime | mort/typechecker.py:1250-1300 | for every constant tree and type: wrapping the unbounded fold gives what the run-time operators give, the cap of huge shifts included |
| ExactArithmetic.FoldsIff | mort/typechecker.py:1250-1300 | a constant tree is folded exactly if nothing in it divides by zero or shifts by a negative count |
| ConstantFolding.ShiftUpWraps | mort/typechecker.py:1292-1297 | the folder's cap wraps to what shifting gives |
| ConstantFolding.HalfSumAgreesIff | mort/typechecker.py:1281-1284 | without the range condition fold and run time differ: for unsigned types (a + b) / 2 agrees if and only if a + b fits, although the fold itself always fits |
| ConstantFolding.SpellingDenotes | mort/codegen.py:318-336 | every value is spelled by a literal its suffix can hold; the cast gives the value back if and only if it is not INT64_MIN, whose cast from the unsigned pattern C leaves to the implementation |
| LexLocality.ScanLocal | mort/lexer.py:97-123 | a token that ends before its line does is read from its own text alone |
| TokenSpelling.SymbolIsLongest | mort/lexer.py:7-58 | a symbol is the longest of the 45 operators, written out, that the text starts with; there is none only if no operator starts the text |
| TokenSpelling.SpellingReadsBack | mort/lexer.py:97-123 | every list of tokens is read back from its spelling, with blanks between two tokens only where they would otherwise run together |
| TokenSpelling.TokenListsAre | mort/lexer.py:97-303 | the token lists that some text has are exactly those in which every token has a spelling: words, digits of base 2, 8, 10 and 16, floats, bytes, string insides, operators, and plain indices behind a dot |
| TokenSpelling.HexEscapeReads | mort/lexer.py:236-247 | an escape `x` and any two hexadecimal digits is the character with that code |
| TokenSpelling.EscapeReads | mort/lexer.py:236-250 | the seven simple escapes and their codes; any other is an error |
| TokenSpelling.PrefixedSeparators | mort/lexer.py:137-164 | a row of digits and separators behind a prefix is a number exactly if it has separators only singly and inside, and then has the digits that stay without them |
| TokenSpelling.DecimalSeparators | mort/lexer.py:165-207 | the same for decimal numbers |
| TokenSpelling.GluedFails | mort/lexer.py:203-206 | a letter that no number goes on with may not follow one directly |
| TokenSpelling.CommentVanishes | mort/lexer.py:209-226 | a block comment leaves no tokens, however deep the comments in it are nested |
| LexerMachine.Lexer.Run | mort/lexer.py:97-123 | the cursor machine gives the tokens of the specification, or fails where it fails; TokenSpelling says which tokens those are |
| LexerMachine.Lexer.BlockComment | mort/lexer.py:209-226 | skips a comment with those nested in it, or reports that it is not closed |
| LexerMachine.Lexer.Number | mort/lexer.py:125-207 | one numeric token, or an error, as specified; after a dot always an index |
| LexerMachine.Lexer.DecimalNumber | mort/lexer.py:165-207 | decimals, fractions and exponents, with their separators |
| LexerMachine.Lexer.CharLiteral | mort/lexer.py:228-258 | one character literal of at most one byte |
| LexerMachine.Lexer.StringLiteral | mort/lexer.py:260-279 | the raw inside of a string, escapes kept |
| LexerMachine.Lexer.SymbolToken | mort/lexer.py:287-303 | the longest operator, as the table written out in TokenSpelling has it |
| Formatting.BraceDelta | mort/formatter.py:4-44 | the braces outside literals and comments, and the open comments |
| Formatting.FormatSource | mort/formatter.py:47-75 | the formatted text of the specification; Indentation says what it looks like |
| Formatting.FormatIsIdempotent | mort/formatter.py:47-75 | formatting formatted text changes nothing, for every string |
| Indentation.FormatIndents | mort/formatter.py:47-75 | in the formatted text of a lexable source with plain line ends, no string across lines and no closing brace without an open one, every line that is not blank is indented by four blanks for each brace token open before it, less the closing braces it starts with (none in a comment) |
| Indentation.FormatKeepsText | mort/formatter.py:53-75 | for every source: the text of each line that is not blank is kept, in order; a blank line stands between two of them exactly where there was one, never two in a row and none at either end |
| Indentation.SplitInverts | mort/formatter.py:53 | splitting gives back the lines of any text, whichever of the ten line boundaries of Python end them |
| TokenPreservation.FormatKeepsTokens | mort/formatter.py:47-75 | formatting keeps every token and its value, in order, for every lexable source with LF or CRLF line ends and no string across lines |
| TokenPreservation.Cut | mort/lexer.py:97-123 | white space before a line end does not change what the lexer has read |
| TokenPreservation.LayoutKeepsTokens | mort/formatter.py:53-75 | the same from any state of lexer and formatter in the middle of a file |
| ContinuedLines.FormatKeepsTokensIff | mort/formatter.py:47-75 | for every lexable source with LF or CRLF line ends, strings across lines included: formatting keeps the tokens if and only if every line that starts inside a string already has the white space the formatter would put there |
| ContinuedLines.LayoutExact | mort/formatter.py:53-75 | the same from any state of lexer and formatter, in the middle of a string as well |
| ContinuedLines.Resume | mort/lexer.py:260-279 | the lexer can be stopped at any line end, inside a string too, and go on from there |
| ContinuedLines.SeparatorsKeepTokensIff | mort/formatter.py:53-54 | sources with any line separators: for a form of the text with plain line ends and the same lines that is lexable, formatting gives the tokens of that form if and only if its continued lines stay, and then keeps the tokens of the source if and only if the form has them |
| ContinuedLines.TrimmedIsForm | mort/formatter.py:53-54 | the text with a line feed for every separator and trimmed lines is such a form |
| ContinuedLines.LineFeedFormMayFail | mort/formatter.py:53-54 | a lexable source can keep its tokens although it does not lex once its separators are line feeds |
| ContinuedLines.SplitCommentIff | mort/lexer.py:103-107 | a line comment with a separator in it that only the formatter splits at keeps having no tokens if and only if the text behind the separator has none |
| BraceAgreement.BracesAreTokens | mort/formatter.py:4-44 | on every line the lexer accepts, the formatter counts exactly the lexer's brace tokens and open comments |
| OperatorLadder.LadderInvertsPrinter | mort/parser.py:551-643 | parsing the minimal-parenthesis rendering of any tree, followed by `;`, gives the tree back and takes exactly its tokens if and only if no printed `<` (other than behind a cast, where the parser does not look) is taken for type arguments; BindingLaws fixes the precedences |
| OperatorLadder.RungTight | mort/parser.py:551-693 | no text shorter than the printed one is read as the tree, and one of that length only if the lookahead refuses every `<` in it |
| OperatorLadder.LadderInvertsPrinterWithoutLess | mort/parser.py:551-643 | in particular for every tree of binary, prefix, cast and call nodes without `<` |
| OperatorLadder.RungInverts | mort/parser.py:554-622 | each rung of the ladder hands the printed tree to its loop as left operand |
| OperatorLadder.GenericInverts | mort/parser.py:695-715 | printed type arguments are recognised by the lookahead and parsed back |
| OperatorLadder.PrinterIsInjective | mort/parser.py:551-643 | two trees that print alike are equal, if in neither a printed `<` is taken for type arguments |
| BindingLaws.TighterOnTheRight | mort/parser.py:554-622 | `x lo y hi z` is lo(x, hi(y, z)) for operators of a looser and a tighter of the ten levels written out |
| BindingLaws.TighterOnTheLeft | mort/parser.py:554-622 | `x hi y lo z` is lo(hi(x, y), z) |
| BindingLaws.OneLevelToTheLeft | mort/parser.py:554-622 | operators of one level associate to the left |
| BindingLaws.CastBindsBetween | mort/parser.py:624-643 | a cast binds tighter than every binary operator and looser than every prefix |
| BindingLaws.ParenthesesGroup | mort/parser.py:554-622 | parentheses override both |
| BindingLaws.CallBindsTightest | mort/parser.py:645-693 | calls, plain and generic, bind tighter than prefixes |
| BindingLaws.LookaheadIff | mort/parser.py:695-715 | type arguments are recognised exactly if some token closes the angle opened here, nothing ends the statement before it, and an opening parenthesis follows it |
| OperatorLadder.ChainIsReadAsCall | mort/parser.py:695-715 | a comparison `(a < t) > (c)` whose right side has to be bracketed is read back as a generic call |
| ExpressionParser.Parser.BinaryRung | mort/parser.py:554-622 | the loop of a rung builds left-nested trees and stops where the ladder function does, or fails where it fails |
| ExpressionParser.Parser.UnaryLevel | mort/parser.py:631-643 | prefix operators nest to the right and bind tighter than casts, as the ladder function has it |
| ExpressionParser.Parser.Postfix | mort/parser.py:645-693 | calls, generic or plain, chosen by the lookahead, as the ladder function has it |
| ExpressionParser.Parser.LooksLikeCall | mort/parser.py:695-715 | the lookahead counts angle brackets to the matching one and asks for an opening parenthesis |
| ExpressionParser.Parser.ReadPrinted | mort/parser.py:551-552 | the parsing object reads a printed tree back and stops at the `;` if and only if no printed `<` is taken for type arguments |
| AggregateCycles.Search.Visit | mort/typechecker.py:427-444 | a reported path is a by-value cycle; otherwise the visited part is finished in dependency order |
| AggregateCycles.Search.Validate | mort/typechecker.py:408-447 | a cycle is reported if and only if one can be reached from the roots, and the reported path is one |
| AggregateCycles.OrderedHasNoCycle | mort/typechecker.py:430-444 | what the search finished in order contains no cycle |
| DefinitionOrder.DependencyIsBelow | mort/codegen.py:1971-1997 | every definition a definition needs is smaller in a measure taken from the search |
| DefinitionOrder.SomeIsReady | mort/codegen.py:2002-2011 | while definitions wait, one of them is ready |
| DefinitionOrder.Order | mort/codegen.py:2002-2016 | every node is defined exactly once; after an accepted check the fallback is never taken and dependencies come first |
| DefinitionOrder.CheckThenOrder | mort/typechecker.py:408-447 | a program is refused if and only if a by-value cycle can be reached; otherwise the emission order is a permutation of all definitions with dependencies first |
| FiniteLayouts.CycleFreeIffFinite | mort/typechecker.py:408-447 | the search finds no cycle if and only if every declared aggregate has a layout of finitely many levels |
| FiniteLayouts.OrderIsCompilable | mort/codegen.py:1971-2016 | an emission order puts dependencies first if and only if everything a definition holds by value is complete when its turn comes |
| TlsCache.StepKeepsInvariant | mort/tls_backend.py:377-421 | every file operation of every process, failures and deaths included, keeps at most one process under the lock |
| TlsCache.StepKeepsCache | mort/tls_backend.py:392-421 | no operation makes a valid cache invalid |
| TlsCache.CacheProtocolIsSafe | mort/tls_backend.py:365-421 | for any number of processes and any run: one holder at a time, a valid cache stays valid, and a process that built or checked under the lock returns with a valid cache that stays |
| TlsCache.UnlockedCheckIff | mort/tls_backend.py:365-385 | over any run: when a process returns after a check outside the lock, the cache has been valid at some point up to then if and only if it is valid now, and if and only if the stamp did not change between reading it and hashing the archive |
| TlsCache.UnlockedCheckWithoutLock | mort/tls_backend.py:365-385 | if no lock file existed during such a check, the cache is valid then and for the rest of the run |
| TlsCache.UnlockedCheckCanBeStale | mort/tls_backend.py:365-375 | there are runs in which such a check succeeds although the cache was valid at no point |
| TlsProgress.SoloFinishes | mort/tls_backend.py:377-421 | a process left alone in a directory without a lock is done after 16 operations: it uses a valid cache and touches nothing, or leaves what it built, its stamp and no lock |
| TlsProgress.WaiterChecks | mort/tls_backend.py:377-391 | while the lock is taken, a process asks again and changes nothing as long as the cache is not valid, and uses it once it is |
| TlsProgress.LockIsGivenBack | mort/tls_backend.py:386-421 | in any run a process that holds the lock and is not killed has dropped it after 11 operations of its own, whatever fails and whatever the others do |
| TlsProgress.AbandonedForGood | mort/tls_backend.py:386-421 | the lock of a process that was killed stays for the rest of any run, and nobody builds any more |
| Registry.VerifyRegistry | mort/registry_security.py:148-299 | the loop over the log accepts exactly the sound indexes; RegistryMeaning says what those are |
| RegistryMeaning.AcceptedIffGenuine | mort/registry_security.py:148-299 | an index is accepted exactly if its keys are well formed, every record is signed with its registered key over its own package, version and fields, the log is numbered, chained, true, complete and without repetitions, and a trusted key has signed its size, its root and the publishers |
| RegistryMeaning.RecordsAreSigned | mort/registry_security.py:196-201 | every record of an accepted index is signed with the key of its registered publisher |
| RegistryMeaning.IndexIsSealed | mort/registry_security.py:276-299 | the checkpoint of an accepted index is signed by a trusted key |
| RegistryMeaning.ChangedSignatureRefused | mort/registry_security.py:196-201 | changing the signature of one record of an accepted index makes it refused |
| RegistryMeaning.ChangedRecordRefused | mort/registry_security.py:211-274 | so does changing or dropping a record without changing the log, whoever seals the result |
| Registry.RootDeterminesLog | mort/registry_security.py:207-270 | equal sizes and roots mean equal logs, down the hash chain |
| Registry.CheckpointDeterminesRegistry | mort/registry_security.py:204-299 | two accepted indexes with equal log size, log root and publishers hash have the same log, publishers and records |
| Registry.LoggedOnceAfterKey | mort/registry_security.py:211-274 | in a verified registry exactly one log entry publishes each record, and exactly one, before it, adds its key |
| Registry.Client.Load | mort/project.py:238-279 | returns and caches what the loading function says: a client moves to a new index only if it verifies and extends the cached log, and a failed call leaves the cache alone |
| RegistryMeaning.ClientMovesIff | mort/project.py:238-279 | a client moves to what it fetched exactly if that is genuine and continues the log of what it has, which must be genuine still; otherwise it fails, and offline it keeps what it has |
| Registry.CachedLogsFormChain | mort/project.py:238-279 | over any run of loads, failing and offline ones included: the cached logs form a chain of prefixes, no cache is lost, and every new cache verifies |
| Registry.BadCacheStays | mort/project.py:241-245 | a cache that fails to verify is never replaced by any later load |
| RegistryAdmin.Registrar.Initialize | tools/registry_admin.py:102-120 | an empty registry verifies under its operator's key |
| RegistryAdmin.Registrar.OperatorUpdate | tools/registry_admin.py:93-99 | an index is written only if it verifies |
| RegistryAdmin.Registrar.AddPublisher | tools/registry_admin.py:129-145 | adding succeeds exactly for a new, well-formed key |
| RegistryAdmin.Registrar.PublishRecord | tools/registry_admin.py:148-178 | publishing succeeds exactly for an active key, its own private key, a new version and well-formed fields |
| RegistryAdmin.Registrar.Revoke | tools/registry_admin.py:181-200 | revoking succeeds exactly once per key |
| RegistryMeaning.PublishEffect | tools/registry_admin.py:148-178 | publishing adds this one signed record and the entry with its hash, and nothing else |
| RegistryMeaning.AddEffect | tools/registry_admin.py:129-145 | adding registers this one key, unrevoked, and the entry with its hash, and nothing else |
| RegistryMeaning.RevokeEffect | tools/registry_admin.py:181-200 | revoking marks this one key with the time and reason given and logs both, and nothing else |
| RegistryAdmin.ExecuteKeeps | tools/registry_admin.py:93-200 | every command keeps the registry sound, its log append-only, and everything already registered unchanged |
| RegistryAdmin.HistoryIsAppendOnly | mort/registry_security.py:302-309 | over any run of commands by any operators, every earlier index is accepted as predecessor of every later one |
| RegistryAdmin.HistoryLogsOnce | tools/registry_admin.py:93-200 | over any run: the one entry that publishes a record and the one that adds its key stay where they are in every later index |
| RegistryAdmin.ScanStays | mort/registry_security.py:207-270 | earlier entries scan alike after keys, records and revocations are added |
| SemVer.ParsedIsWellFormed | mort/project.py:37-49 | parsed versions have no numeric prerelease identifier with a leading zero |
| VersionMeaning.ParseIff | mort/project.py:31-49 | a text is read as v exactly if it is the spelling of v, with any well-formed build metadata and at most one line feed behind it |
| SemVer.CompareSemver | mort/project.py:52-68 | the loops give the three-way result whose order laws follow |
| SemVer.CompareIsPrecedence | mort/project.py:52-68 | the comparison is clause 11 of SemVer 2.0.0 in both directions, antisymmetric, and zero only for equal versions |
| SemVer.CompareIsTransitive | mort/project.py:52-68 | the comparison is transitive |
| SemVer.LeadingZerosBreakOrder | mort/project.py:46-48 | without the leading-zero rule the comparison is no order: it fails to be antisymmetric on two identifiers if and only if they are different digit strings of equal value, and then each is above the other |
| SemVer.ConstraintIsConvex | mort/project.py:71-119 | the versions that satisfy a constraint form an interval |
| SemVer.RangesContainTheirBase | mort/project.py:83-99 | caret and tilde ranges contain the version they are built from |
| VersionMeaning.CaretMeans | mort/project.py:83-92 | a caret range is the versions from its base on that keep the left-most number that is not zero, and the prereleases of the first version that does not |
| VersionMeaning.CaretTakesNextMajorIff | mort/project.py:83-92 | so it takes a version of another major number exactly if that is a prerelease of the next one |
| VersionMeaning.TildeMeans | mort/project.py:93-99 | a tilde range keeps major and minor, and has the prereleases of the next minor version |
| SemVer.SemverSatisfies | mort/project.py:71-119 | the loop over the clauses answers yes exactly if every clause holds |
| SemVer.SelectSemver | mort/project.py:122-128 | the first of the greatest satisfying versions, or none if there is none |
| MortFs.Validate | kernel/mkfs.py:71-104 | seeds are accepted exactly if names are good and distinct and contents fit |
| MortFs.WriteFiles | kernel/mkfs.py:106-115 | entries and extents of all files, every other byte zero |
| MortFs.Make | kernel/mkfs.py:57-127 | refused exactly for unacceptable input; otherwise the image holds exactly the files and reads back to them |
| MortFs.ImageRoundTrip | kernel/mkfs.py:106-119 | an image reads back to the same names and contents in the same order |
| ImageBytes.HeldImage | kernel/mkfs.py:106-118 | the image byte by byte: size, magic, superblock, entries, contents and zeros, at their offsets |
| ImageBytes.BuildableIff | kernel/mkfs.py:67-104 | the input there is an image for, in numbers |
| MortFs.RegionsAreDisjoint | kernel/mkfs.py:19-38 | superblock, table entries and extents never overlap and lie inside the image |
| MortFs.SelfCheck | kernel/mkfs.py:130-157 | passes on every faithful image, and what passes reads back to the files |
| MortFs.NormalizeLeavesCrlfIff | kernel/mkfs.py:89-91 | a text file is stored with a CRLF in it if and only if the input has a CR CR LF |
| ImageBytes.NormalizeJoins | kernel/mkfs.py:89-91 | text between CR LF pairs is kept and each pair becomes one LF |
| DropSynthesis.Query.NeedsDrop | mort/typechecker.py:998-1021 | with one visited set for all branches, the answer is yes if and only if a resource struct is stored by value somewhere inside |
| DropSynthesis.Destructors.ResourceDestructor | mort/typechecker.py:1023-1056 | after an accepted cycle check, registering a destructor registers those of all parts that need one |
| DropSynthesis.ChildIsBelow | mort/typechecker.py:1041-1056 | every part of a value has a smaller measure taken from the cycle search, so the registration terminates |
| DropSynthesis.Destructors.CheckThenRegister | mort/typechecker.py:1023-1056 | cycle check and registration together: refused if and only if a by-value cycle can be reached |
| DropSynthesis.GenDropHelper | mort/codegen.py:1905-1948 | the helper's statements, last part first |
| DropSynthesis.DropIsReversed | mort/codegen.py:1905-1948 | the helper destroys exactly the outermost resources of any value, each once, last constructed first, and of an enum only the active payload |
| DropSynthesis.LeavesAre | mort/codegen.py:1905-1948 | the outermost resources of a value: those of its parts from first to last, of an enum those of its payload |
| DropSynthesis.HoldsNoneEmpty | mort/typechecker.py:998-1021 | types without a resource have values without one |
| AliasResolution.CyclicIffReached | mort/typechecker.py:296-302 | resolution reports a cycle if and only if one can be reached |
| AliasResolution.ResultIsFree | mort/typechecker.py:296-334 | a resolved type mentions no alias |
| AliasResolution.FreeIsFixpoint | mort/typechecker.py:296-334 | and resolves to itself |
| AliasMeaning.ResolutionMeansTheSame | mort/typechecker.py:296-334 | in whatever way types are given a meaning that respects the aliases, a type and its resolution mean the same |
| AliasMeaning.ResolutionIsSubstitution | mort/typechecker.py:296-334 | where every alias resolves, every type resolves to itself with its aliases replaced by what they resolve to |
| AliasResolution.ReplacementIsHarmless | mort/typechecker.py:689-690 | replacing an alias by its resolution changes the outcome of no type |
| AliasResolution.Aliases.ResolveTable | mort/typechecker.py:689-690 | overwriting the table name by name ends with what the original table resolves every alias to, or fails exactly if some alias reaches a cycle |

## Left out

- FunctionTheorem.LoweringPreservesMeaning: covers functions in which no declaration reuses a name that pending cleanup mentions or mentions its own name in what is left of its initializer, and in which the parts of an expression around a `try` have no effects a hoisted call could notice and read nothing it overwrites or moves; InitializerScope and LoweringLimits show what the code does otherwise.
- TryProof.PrepareSound: the parts around a `try` must be free of effects and unaffected by the hoisted calls, because the code evaluates them after the hoisted calls.
- ExactlyOnce.CallsSettleOwnership: leaves out `move` in a `while` condition and in deferred expressions, and, for reads of moved bindings, deferred reads of owners; DrainSettlesIff and LateReadFaultsIff give what the code does there.
- InitializerScope.DeclarationSoundIff: a variable without a value reads as an arbitrary number; that it was used is what counts.
- ConstantFolding.FoldAgreesWithRuntime: one direction of the range condition; HalfSumAgreesIff shows by a family of programs that it cannot be dropped.
- TokenPreservation.FormatKeepsTokens: the case without strings across lines; ContinuedLines.FormatKeepsTokensIff has them, with the exact condition.
- ContinuedLines.SeparatorsKeepTokensIff: needs a lexable form with the same lines; LineFeedFormMayFail shows that the line-feed form need not be one, TrimmedIsForm gives another.
- TlsCache.CacheProtocolIsSafe: does not cover a process that returns after a check outside the lock; UnlockedCheckIff says exactly when its cache is valid, UnlockedCheckCanBeStale that it need not be.
- DropSynthesis.Destructors.ResourceDestructor: a finite set of types closed under containment is given as a ghost argument.
- MortFs.Make: reading host files and parsing `HOST:NAME` specifications are parameters; a size whose sector count exceeds 32 bits counts as refused.
- Statements: explicit `destroy` calls and `defer destroy`, compound assignment, targets other than a name, inline assembly, discarded resource results and multi-payload patterns.
- Expressions: aggregates, indexing, casts and calls with several arguments; one argument stands for all, and C's order of evaluation is taken left to right. Integers are unbounded in the statement semantics.
- Match patterns of enums are variant numbers, of other types constants; the subject's tag decides.
- MoveRules.ExprAcceptedIff: `move` of a value that needs no destructor, which the checker takes for a plain read, is such a read in the model.
- MoveRoutes.FunctionAcceptedIff: of the types only whether a value owns something; names that are not declared count as globals, and mutability, literal ranges and the payloads of enums without owners are not looked at.
- MoveRoutes.StmtAcceptedIff: a loop body is one route, walked once, as the checker does; LoopMovesNothing says why once is enough for bindings outside the loop.
- RunTimeFacts.CallsInOrder: the language specification leaves the order of operands open; the model takes them from left to right.
- Indentation.FormatIndents: sources with a closing brace too many, whose depth the formatter holds at zero, and strings across lines, whose inside it scans for braces.
- BindingLaws.ParenthesesGroup: without the operator `<`, which a parenthesis behind it may turn into type arguments; OperatorLadder.LadderInvertsPrinter has the exact condition.
- A call that writes through a pointer is modelled by `StoreTo`; pointers, slices and aliasing are otherwise not part of this model.
- Struct literals, tuples, arrays, field access, indexing, string interpolation and `null` in the expression parser; type names with type arguments of their own; the splitting of `>>` inside type arguments.
- Line and column numbers of tokens and all diagnostics texts.
- The text of version constraints: clauses are taken as parsed; wildcard, caret, tilde and comparison clauses are modelled.
- `json`, Base64 and regular expressions of registry fields are predicates; the clock, Git and the network are parameters or absent.
- The `checkpoint` and `verify` commands of the registry tool on their own; every modelled command seals a checkpoint and verifies.
- The string encoding of types; types are trees here, those of aliases with their pointer, slice and generic forms, those of values (`AggregateTypes`) with one form for everything stored indirectly.
- Float arithmetic, `c_*` integer types, casts between integers and pointers, the emitted run-time library, the language server, the package resolver beyond versions and the registry cache.
