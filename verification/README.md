# b2, modelled and proved in Dafny

b2 compiles templates. A template becomes a tree of statements and expressions; four passes
rewrite that tree; one backend lowers it to a graph of LLVM basic blocks for a PHP extension,
another one to JavaScript. This project gives template trees a reference interpreter and proves
the rest of the compiler against it:

* the pass pipeline preserves what a template renders and reaches a normal form;
* the block graph prints, on every run, exactly what the interpreter renders, and returns early
  exactly where the interpreter stops;
* the JavaScript function that is printed returns the same text, its lines read by their braces
  and run, in every engine that agrees with the run-time library on what the template evaluates;
* therefore the two backends agree there, and templates on which they do not are given.

Run `dafny verify dfyconfig.toml` to check everything.

## How it is organised

| files | content |
|---|---|
| `Results`, `Doubles`, `Ast` | options and results; IEEE 754 doubles and the rounding of integers to them; trees and their two static types |
| `Semantics` | the reference interpreter `Render`: text printed so far and whether rendering went on |
| `Folding`, `ExpressionPasses` | constant folding as one bottom-up rewrite; the expression walker and cloning |
| `Passes`, `PassProperties`, `LiteralPrints` | the statement walker with its splice loop, the other passes, the pass manager; what they achieve; printed literals read back |
| `Includes`, `IncludePaths` | include resolution as a substitution, and where it is not one; which file a name or an error means |
| `Pipeline` | the four passes in the order in which the extension runs them |
| `Engines`, `Javascript`, `JavascriptVisitor`, `JavascriptSource` | what a JavaScript engine adds to a run-time library; the emitted statement tree and its meaning; the visitor and the code emitter as classes; the printed lines, read and run |
| `Portability` | templates that mean the same to an engine, and templates that do not |
| `Ir`, `Lowering`, `LlvmVisitor` | a small IR and its step semantics; lowering as functions on the builder's state; IR builder, PHP bindings and LLVM visitor as classes |
| `LoweringFrames`, `LoweringRuns`, `LoweringStorage` | reference counts and finished blocks; how emitted code runs; where values live and when their storage ends |
| `LoweringCorrect`, `LoweringLoops`, `LoweringStatements`, `LoweringTheorems` | the compiler correctness proof: expressions, loops, statements, templates |
| `LoweringHistory` | what runs create, use and destroy, told from the instructions |
| `LoweringGraph`, `LoweringScopes` | what LLVM's verifier asks of blocks, branches and registers |
| `LoweringAccepts`, `LoweringBalance`, `Exactness` | exactly which templates compile, have balanced reference counts, and are computed exactly |
| `LoweringExamples` | compiled templates that go wrong, one for each condition |
| `Arrays` | which attribute and which elements of an array are printed, by the interpreter, the compiled function and the JavaScript |
| `Compilation` | the passes and the backends composed |
| `StringLiterals`, `TemplateBuffers` | the lexer's in-place unescaping; the growing output buffer |

Code that updates state in place is a class or a method with a loop, proved equal to a function
of the same state; the theorems are about those functions.

## What the theorems ask of a template

Each condition comes from a line of the code, and most have a lemma with an input that fails it.

* *Hygienic includes.* The substitution passes know nothing about loops
  (`lib/ast/passes/pass_manager.cpp:40-48`), so a loop of an included file may use a variable that
  it binds only where the include maps that variable to itself, as `with x` does, and must not
  capture a variable of a replacement. For literals, variables and attribute chains this is exact:
  `Includes.CommutesExactly`. Includes on either side of it: `Includes.LoopVariableIsKept`,
  `Includes.LoopVariableIsReplaced`, `Includes.LoopCapturesReplacement`.
* *Includes that move no operation with an effect.* Replacing a variable by a literal moves an
  operation from the library into the compiler, and Zend divides 3 by 4 into 0.75. Only the
  operations that move have to agree with the library, and only on the values their operands can
  have; `Includes.OperationKeptExactly` says that less will not do. With `using`, or with variants
  as arguments, nothing moves: `Includes.VariantsKeepOperationsIn`. A template that fails it:
  `Includes.LiteralArgumentsMoveDivision`.
* *Comparisons of large integers.* Folding compares integers as doubles
  (`lib/ast/passes/fold_constant_expressions_pass.cpp:34`); `Folding.RoundedComparison` says
  exactly when that is right, `Folding.RoundedComparisonCanFail` that 2^53 and 2^53 + 1 fold to
  equal.
* *Printed literals.* The conversion pass spells booleans `true` and `false`
  (`lib/ast/passes/convert_literal_printblock_to_rawblock_pass.cpp:35`), the run-time library
  `1` and the empty string (`src/php/php_bindings_functions.c:58`): `PassProperties.ConversionExact`.
* *No call inside a cloned expression.* `cloneExpressionList` starts with as many nulls as there
  are arguments (`lib/ast/expressions.hpp:74`): `ExpressionPasses.CloneIsExact` makes this an error.
* *No loop over a loop variable inside another loop over it.* Loop metadata is keyed by the
  iterable (`src/php/php_bindings.cpp:131`, `:142`, `:146`): `LoweringAccepts.SameVariableTwice`.
* *No counted value as an argument*, for temporaries that are all destroyed: exactly then by
  `LoweringBalance.TemplateCountsExactly`; a template that leaks one is
  `LoweringExamples.ArgumentIsLeaked`. *Attributes of variables only*, for storage that is not used
  after its end; a template that does it is `LoweringExamples.AttributeDangles`. The two are
  independent of each other, neither changes what is printed, and for a printed expression
  `LoweringBalance.PrintedExactly` says exactly when either goes wrong.
* *Native operations of the parser's types.* The parser asserts them of every operation
  (`lib/parser/syntax.y:292-307`), substituting variants keeps them
  (`Compilation.ResolvedIsTyped`), and only operations without a variant operand need them: a
  literal in the place of a variable may stand beside any variant.
* *No doubtful comparison.* `!=` on doubles is compiled to an ordered comparison
  (`lib/backends/llvm/llvm_visitor.cpp:353`), which is false on NaN, and a boolean compared with a
  double is converted as a signed bit. After folding these are the only instructions that can
  compute something else than the interpreter, and they do so exactly when an operand is NaN or the
  library disagrees about the boolean: `Exactness.FoldedIsExact`, `LoweringExamples.NotEqualMissesNaN`,
  `LoweringExamples.BooleanIsNegative`.
* *Agreement of the JavaScript engine* with the library, on what rendering the template evaluates
  (`Engines.Agreement`); an array has to be visited in its own order, inherited keys aside. In
  JavaScript a property of null throws, `&&` and `||` skip their right
  operand, and their value is an operand: `Portability.NullBaseThrows`,
  `Portability.SkippedCallFails`, `Portability.OperandIsPrinted`. With the engine's own operations
  as the library no agreement has to be assumed when `&&` and `||` stand in conditions or combine
  booleans, attributes are taken of values other than null, what is skipped has a value and the
  literals can be spelled: `Portability.PlainThroughout`.
* *Literals that JavaScript can spell.* `std::to_string` gives a double six decimals and spells
  infinity and NaN as `inf` and `nan` (`lib/backends/javascript/javascript_visitor.cpp:288-296`),
  and an engine rounds what it reads to a double. The engine of this model reads a literal that
  way (`Engines.Read`); agreement asks that it reads the literal's own value.
  `Portability.LiteralIsRounded` says exactly when a test against a literal is right,
  `Portability.TinyLiteral` gives one that is not.

Where the code and its own remarks disagree, the code is followed: `forloop_init` accepts one
element, not "more than 1" (`src/php/php_bindings_functions.c:232`, `:247`); the value that
`createMethodCall` names `callFailed` is true when the call succeeded
(`src/php/php_bindings.cpp:353`); `valueType()` calls the negation of a variant Boolean
(`lib/ast/expressions.hpp:168`) while the backend computes a variant
(`lib/backends/llvm/llvm_visitor.cpp:287`).

## Model

| member | source | states |
|---|---|---|
| `Compilation.CompiledTemplateRenders` | src/php/php_b2.cpp:113-122 | With any run-time library, a template whose includes resolve faithfully, optimized by the four passes and compiled to a block graph without a doubtful comparison, runs to a return having printed exactly what the original template renders in the caller's data. If the optimized tree takes attributes of variables only, no storage is used after its end; if it passes no counted value to a call, no temporary is created over a live one and, unless rendering failed, none is left. |
| `Compilation.JavascriptTemplateRenders` | src/js_precompiler/compiler.cpp:169-171 | The same optimized template, printed as JavaScript, its lines read back and run by an engine that agrees with the library on what rendering it evaluates, literals as the engine reads them included, returns the text of the original template, or throws where rendering it fails with that text in `buffer`. |
| `Compilation.BackendsAgree` | src/php/php_b2.cpp:113-122 | With that agreement every finished run of the compiled function has printed the text that the printed JavaScript returns, or has in `buffer` when it throws. |
| `Compilation.PlainTemplateRenders` | src/js_precompiler/compiler.cpp:169-171 | With the operations of an ECMAScript engine as the library, the generated JavaScript renders a well-typed template whose logical operators stand where they may and whose literals are read as they were meant, on data from which its attributes can be fetched; no agreement is assumed. |
| `Compilation.BackendsDisagree` | lib/backends/javascript/javascript_visitor.cpp:322-327 | For a template that prints x if `a` or `f(1)` is true, with `a` true and the call failing, the JavaScript prints x and the compiled function returns having printed nothing. |
| `Compilation.WalkKeepsTypes` | lib/parser/syntax.y:292-307 | Substituting variants, folding, converting and coalescing a tree whose native operations are well typed gives such a tree. |
| `Compilation.SubstitutionKeepsTypes` | lib/ast/passes/resolve_includes_pass.cpp:23-49 | Putting variants in the place of variables keeps native operations well typed, leaves variants variants and changes no type of anything else. |
| `Compilation.ResolvedIsTyped` | lib/ast/passes/resolve_includes_pass.cpp:77-101 | If the native operations of a template and of all files it includes are well typed and its includes pass variants, those of the resolved tree are well typed. |
| `Ast.WellTypedNatively` | lib/parser/syntax.y:292-307 | What the parser asserts of every operation it builds is more than what native operations need. |
| `Exactness.FoldedIsExact` | lib/backends/llvm/llvm_visitor.cpp:230-368 | In a well-typed, folded expression that the backend accepts, the instructions that stand for native operations compute the interpreter's values, in all environments, if and only if no comparison in it is doubtful: no `!=` on a NaN, and no boolean against a double about which the library disagrees. |
| `Exactness.ComparisonExactly` | lib/backends/llvm/llvm_visitor.cpp:313-367 | The same for one comparison: what the instructions decide and what C++ and the library decide are equal on all values its operands can have if and only if it is not doubtful. |
| `Exactness.ComparisonRuns` | lib/backends/llvm/llvm_visitor.cpp:313-367 | The code of a comparison, doubtful or not, ends with the machine's own decision in its operand: integers compared as signed, booleans taken for 0 and -1, doubles compared in order. |
| `Exactness.FoldedIsRunnable` | lib/ast/passes/fold_constant_expressions_pass.cpp:36-255 | Folding leaves no integer arithmetic, so such an expression meets all that the correctness of compiled code asks. |
| `Exactness.MachineIntegers` | lib/backends/llvm/llvm_visitor.cpp:240-253 | The integer instructions that folding removes: sums, differences and products are right modulo 2^64 and right where they fit; quotients and remainders are defined and right exactly where folding has them, and a quotient only where nothing remains. |
| `Exactness.TypedCompiledType` | lib/ast/expressions.hpp:133-147 | A well-typed expression that is no variant compiles to an operand of the LLVM type of its `valueType()`. |
| `Pipeline.OptimizeAST` | src/php/php_b2.cpp:113-122 | Adding the four passes to a manager and running it computes resolve, fold, convert and coalesce in that order, stopping at the first error. |
| `Pipeline.OptimizeSound` | src/php/php_b2.cpp:113-122 | With any run-time library, when the pipeline succeeds on a template whose includes resolve faithfully and whose large comparisons and printed literals are as the passes take them, the result renders the same text, with the same success or failure, as the original in every environment. |
| `Pipeline.OptimizeNormalizes` | src/php/php_b2.cpp:113-122 | The result has no include, no list directly in a list and no list of one statement, nothing for any of the four passes to do, and the pipeline maps it to itself. |
| `Pipeline.OptimizeFailsExactly` | lib/ast/passes/pass_manager.cpp:87-103 | The pipeline fails if and only if some include that is reached names a missing file, nests too deep or leaves a variable of its file without a usable replacement, or some subexpression of the resolved tree divides by zero, overflows or mixes literal kinds. |
| `Pipeline.FoldingFailsExactly` | lib/ast/passes/pass_manager.cpp:15-72 | Folding a resolved tree fails if and only if folding one of its printed expressions, conditions or iterables does. |
| `Pipeline.AddAstToStatements` | lib/parser/syntax.y:34-46 | Appends the statements of a list one by one, and anything else as it is. |
| `Pipeline.ParserListsAreFlat` | lib/parser/syntax.y:23-46 | The parser's list actions keep lists flat and make no list of one element, so coalescing leaves no adjacent raw blocks even without the earlier passes. |
| `Folding.FoldSound` | lib/ast/passes/fold_constant_expressions_pass.cpp:36-255 | An expression that folds keeps its value, or its failure, in every environment and for every run-time library, provided its constant integer comparisons are decided as integer comparisons. |
| `Folding.FoldFailsExactly` | lib/ast/passes/fold_constant_expressions_pass.cpp:93-103 | Folding fails if and only if some subexpression divides or takes the remainder by a constant zero, has a constant 64-bit result that overflows, or compares two literals of which only one has the kind the operator casts to. |
| `Folding.TypedFoldErrors` | lib/ast/passes/fold_constant_expressions_pass.cpp:215-251 | On expressions the parser accepts, the casts behind the `&&` guards are never wrong: only division by zero, modulo by zero and overflow remain as errors. |
| `Folding.FoldPreservesTypes` | lib/ast/expressions.hpp:133-183 | Folding a well-typed expression gives a well-typed one of the same `valueType()`, and a variant exactly when it was one. |
| `Folding.IntegersFoldToLiterals` | lib/backends/llvm/llvm_visitor.cpp:240-253 | A well-typed expression of type Integer that folds becomes an integer literal of 64 bits, so no integer division reaches `CreateExactSDiv`. |
| `Folding.FoldIdempotent` | lib/ast/passes/fold_constant_expressions_pass.cpp:41-57 | Folding a folded expression changes nothing. |
| `Folding.SumLaws` | lib/ast/passes/fold_constant_expressions_pass.cpp:87-90 | Folded sums of 64-bit integers: adding 0 changes nothing, adding one more gives one more, subtracting undoes adding and adding undoes subtracting, and only what does not fit is an overflow. |
| `Folding.ProductLaws` | lib/ast/passes/fold_constant_expressions_pass.cpp:91-92 | Folded products: 0 times is 0, one time more is one left operand more, and only what does not fit is an overflow. |
| `Folding.QuotientLaws` | lib/ast/passes/fold_constant_expressions_pass.cpp:93-102 | Folded quotients and remainders: the dividend is quotient times divisor plus remainder, which is smaller than the divisor and has the dividend's sign; division by zero and modulo by zero are reported as such, and only the least integer over -1 overflows. |
| `Folding.RemainderFits` | lib/ast/passes/fold_constant_expressions_pass.cpp:98-102 | The remainder of 64-bit integers fits, is smaller than the divisor and has the sign of the dividend (section 5.6 of C++11). |
| `Folding.RoundedComparison` | lib/ast/passes/fold_constant_expressions_pass.cpp:34 | Comparing two integers as doubles agrees with comparing them exactly if and only if they are equal, round to different doubles, or stand in the order in which the operator is right anyway (a true `<` or `>` is exact, an exact `<=` or `>=` stays true). |
| `Folding.SmallIntegersCompareExactly` | lib/ast/passes/fold_constant_expressions_pass.cpp:185-190 | One operand below 2^53 in magnitude, or two of at most 2^53, suffice for an exact comparison. |
| `Folding.RoundedComparisonCanFail` | lib/ast/passes/fold_constant_expressions_pass.cpp:188 | 2^53 and 2^53 + 1 are different integers that fold to equal. |
| `Folding.FoldComparisonSound` | lib/ast/passes/fold_constant_expressions_pass.cpp:154-255 | A comparison of literals that folds is left alone or replaced by the boolean that comparing the literals' values gives, integers being decided as such. |
| `Doubles.RoundIntMonotone` | lib/ast/passes/fold_constant_expressions_pass.cpp:34 | Rounding integers to doubles, ties to even (section 4.3.1 of IEEE 754-2008), never reverses their order. |
| `Doubles.SmallIntegersAreDoubles` | lib/ast/passes/fold_constant_expressions_pass.cpp:34 | Every integer of magnitude at most 2^53 is a double. |
| `Doubles.LargeIntegersStayLarge` | lib/ast/passes/fold_constant_expressions_pass.cpp:34 | Rounding an integer of magnitude at least 2^53 never falls below 2^53. |
| `Doubles.RoundIntNearest` | lib/ast/passes/fold_constant_expressions_pass.cpp:34 | The double of an integer is as near to it as any multiple of the gap between doubles there, on either side of zero, and of two equally near ones the even multiple. |
| `Doubles.DoublesOrdered` | lib/ast/passes/fold_constant_expressions_pass.cpp:154-190 | Doubles compare as the reals between the infinities, both zeros are equal, and NaN stands apart from everything. |
| `Doubles.NegationReverses` | lib/ast/passes/fold_constant_expressions_pass.cpp:123-133 | Changing the sign of a double undoes itself, reverses the order, gives the opposite number and tells the two zeros apart. |
| `Doubles.SixDecimalsNearest` | lib/backends/javascript/javascript_visitor.cpp:288-291 | What is written of a double has six decimals, and no number with six decimals is nearer. |
| `ExpressionPasses.VisitIsFold` | lib/ast/passes/pass.hpp:208-266 | Folding inside the pass and walking the folded children again computes one bottom-up fold, errors included. |
| `ExpressionPasses.SecondVisit` | lib/ast/passes/pass.hpp:215-225 | Walking an already folded expression again is a no-op. |
| `ExpressionPasses.VisitsBounded` | lib/ast/passes/pass.hpp:208-266 | A fold calls the walker at most size times 2^height times. |
| `ExpressionPasses.CloneIsExact` | lib/ast/expressions.hpp:60-89 | Cloning copies an expression exactly, unless it holds a call with arguments, in which case it runs into the null arguments. |
| `ExpressionPasses.CloneExpressionList` | lib/ast/expressions.hpp:72-79 | A cloned list of n expressions has n nulls followed by the n clones in order. |
| `Passes.Process` | lib/ast/passes/pass.hpp:65-131 | The statement walker computes the specification `Walk` of the pass on every kind of statement, or stops at its first error. |
| `Passes.ProcessStatements` | lib/ast/passes/pass.hpp:24-63 | The in-place loop visits each original child once, puts the in-order concatenation of the flattened results in the list, and replaces a list of one by its element. |
| `Passes.StoreChild` | lib/ast/passes/pass.hpp:40-54 | Inserting a child list before itself and erasing it puts its statements at its place, keeps the statements on both sides, and leaves the iterator on the last one inserted. |
| `Passes.ProcessInclude` | lib/ast/passes/resolve_includes_pass.cpp:77-101 | An include becomes its file, resolved on its own and then substituted by the private manager's single pass; a missing file is an error. |
| `Passes.Concat` | lib/ast/passes/coalesce_rawblocks_pass.cpp:8-35 | The buffer, sized in a first loop and filled in a second, holds all strings in order and a terminating NUL and nothing else. |
| `Passes.GatherTexts` | lib/ast/passes/coalesce_rawblocks_pass.cpp:50-59 | Collects the texts of the maximal run of raw blocks at the iterator. |
| `Passes.EraseRun` | lib/ast/passes/coalesce_rawblocks_pass.cpp:65-74 | Erases exactly the raw blocks that follow without a gap. |
| `Passes.MergeRun` | lib/ast/passes/coalesce_rawblocks_pass.cpp:45-76 | One step of the loop leaves everything before the iterator, and the merged block followed by the coalesced rest is the coalesced list from there. |
| `Passes.CoalesceStatements` | lib/ast/passes/coalesce_rawblocks_pass.cpp:37-80 | The nested iterator loops compute the recursive coalescing of the list. |
| `Passes.RunCoalesces` | lib/ast/passes/coalesce_rawblocks_pass.cpp:61-64 | A maximal run of raw blocks coalesces to one block with the concatenation of its texts. |
| `Passes.PassManager.AddPass` | lib/ast/passes/pass_manager.cpp:7-11 | Appends the pass to the list. |
| `Passes.PassManager.RemoveAllPasses` | lib/ast/passes/pass_manager.cpp:82-85 | Leaves no pass in the list. |
| `Passes.PassManager.Run` | lib/ast/passes/pass_manager.cpp:87-103 | Feeds each pass the tree of the previous one, in the order of the list, and stops at the first error. |
| `PassProperties.WalkFlattens` | lib/ast/passes/pass.hpp:24-63 | After any pass, on any tree and including empty included files, no list directly contains a list and none has exactly one element, at any depth. |
| `PassProperties.ExpressionPassKeepsList` | lib/ast/passes/pass.hpp:57-62 | On a flat list an expression pass keeps the number of statements, so the substitution run over an included tree never replaces its root. |
| `PassProperties.IncludeIsVisited` | lib/ast/passes/pass_manager.cpp:50-68 | On an include that is not resolved, an expression pass replaces the scope and every expression of the mapping by what visiting it gives, fails if and only if one of these visits does, and changes nothing else. |
| `PassProperties.WalkSound` | lib/ast/passes/pass_manager.cpp:87-103 | Folding, converting or coalescing a tree keeps what it renders in every environment, includes that are not resolved yet and what they pass to their files among it, under that pass's own condition. |
| `PassProperties.CoalescedNormal` | lib/ast/passes/coalesce_rawblocks_pass.cpp:37-80 | A coalesced list has no two adjacent raw blocks, keeps all other statements in order, and a list that has none is left as it is. |
| `PassProperties.CoalescedRenders` | lib/ast/passes/coalesce_rawblocks_pass.cpp:61-64 | A coalesced list renders the same text in every environment. |
| `PassProperties.CoalescingSettles` | lib/ast/passes/coalesce_rawblocks_pass.cpp:37-80 | On a flat tree coalescing never fails and leaves no adjacent raw blocks in any list at any depth. |
| `PassProperties.ConversionExact` | lib/ast/passes/convert_literal_printblock_to_rawblock_pass.cpp:21-44 | Converting a printed literal keeps the text if and only if the run-time library shows the literal's value as the pass spells it. |
| `LiteralPrints.PrintedLiteral` | lib/ast/passes/convert_literal_printblock_to_rawblock_pass.cpp:21-44 | Converting a printed boolean or integer gives a text that reads back as it, in its shortest spelling; a string literal becomes its own text, which is what it renders with any library. |
| `LiteralPrints.SpellingIsRead` | lib/parser/syntax.l:95-100 | For all booleans and integers: the spelling is a keyword of the lexer or decimal digits with an optional sign, and reading it by place value gives the literal back, without leading zero or negative zero. |
| `LiteralPrints.SpellingIsUnique` | lib/parser/syntax.l:95-100 | No other shortest text reads as that literal. |
| `PassProperties.SettledIsFixed` | lib/ast/passes/pass.hpp:24-132 | A flat tree in which a pass would change no node is returned unchanged by the walker. |
| `PassProperties.WalkSettles` | lib/ast/passes/pass_manager.cpp:15-72 | After folding, or after converting, the same pass finds nothing left to change. |
| `PassProperties.WalkKeepsSettled` | src/php/php_b2.cpp:117-120 | A later pass of the pipeline creates no work for an earlier one. |
| `Includes.ResolveSound` | lib/ast/passes/resolve_includes_pass.cpp:77-101 | With any run-time library and through any depth of includes that are hygienic and move no operation with an effect, a loop over a variable that the include maps to itself among them, the resolved tree renders in the caller's environment as the template does when every included file is rendered in the environment of its mapping or scope. |
| `Includes.WalkSubstitutes` | lib/ast/passes/resolve_includes_pass.cpp:63-75 | One substitution run is a simultaneous substitution: the rewritten tree renders as the original does with its variables bound to the replacements' values, which are not rewritten again. |
| `Includes.VisitSubstitutes` | lib/ast/passes/resolve_includes_pass.cpp:23-49 | The same for a single expression, with a mapping or with a scope. |
| `Includes.OperationKeptExactly` | lib/ast/passes/resolve_includes_pass.cpp:23-49 | An operation whose operands keep their values keeps its own in all environments if and only if the substitution leaves it with the library or the library agrees with the compiler on the values its operands can have. |
| `Includes.VariantsKeepOperationsIn` | lib/ast/passes/resolve_includes_pass.cpp:37-49 | When every variable a file mentions is replaced by a variant, as by the attributes of a scope, nothing is asked of the library. |
| `Includes.VisitFailsExactly` | lib/ast/passes/resolve_includes_pass.cpp:23-35 | Substituting in an expression fails if and only if it mentions a variable that has no replacement or one that cannot be cloned. |
| `Includes.SubstitutionFailsExactly` | lib/ast/passes/resolve_includes_pass.cpp:23-49 | Substituting in a resolved tree fails if and only if some expression of it mentions such a variable; loop binders make no difference. |
| `Includes.ResolveFailsExactly` | lib/ast/passes/resolve_includes_pass.cpp:77-101 | Resolution fails if and only if an include that is reached is missing, too deep, or lacks a usable replacement for a variable of its resolved file; these variables are worked out without resolving, and are exactly those the resolved tree mentions. |
| `Includes.ResolvedIncludeFree` | lib/ast/passes/resolve_includes_pass.cpp:77-101 | After resolution no include is left anywhere. |
| `Includes.EnoughDepth` | lib/ast/passes/resolve_includes_pass.cpp:82-86 | When includes are acyclic, any depth above their ranks is never exhausted and all such depths give the same result. |
| `Includes.CommutesExactly` | lib/ast/passes/pass_manager.cpp:40-48 | For a variable replaced by a literal, a variable or a chain of attributes: entering a loop and entering the included file give it one value in either order, in all environments and for all elements, if and only if a variable that the loop binds is mapped to itself and any other replacement mentions nothing that the loop binds. |
| `Includes.LoopVariableIsKept` | lib/parser/syntax.y:253-264 | A loop over `items` that prints its variable x, included `with x, items`, resolves to that very loop and renders alike. |
| `Includes.LoopVariableIsReplaced` | lib/ast/passes/resolve_includes_pass.cpp:46-49 | A loop in a file included with `using` prints the scope's attribute (here null) instead of its own variable. |
| `Includes.LoopCapturesReplacement` | lib/ast/passes/pass_manager.cpp:40-48 | A loop in a file included with `with` captures a variable of the replacement. |
| `Includes.LiteralArgumentsMoveDivision` | lib/ast/passes/resolve_includes_pass.cpp:34 | Passing 3 and 4 to a file that divides its variables renders the integer 0 after resolution, whatever quotient the library computes; that include meets the condition exactly when the library computes 0 as well. |
| `IncludePaths.AbsoluteInclude` | lib/ast/passes/resolve_includes_pass.cpp:53-61 | An include whose name starts with a slash renders and resolves to the file stored under that very name, and fails when there is none. |
| `IncludePaths.RelativeInclude` | lib/ast/passes/resolve_includes_pass.cpp:53-61 | Any other name, the empty one included, means the file stored under base path, slash and name. |
| `IncludePaths.PathsAreDistinct` | lib/ast/passes/resolve_includes_pass.cpp:53-61 | Two different names, both absolute or both not, never mean one file. |
| `IncludePaths.ResolvesAnywhere` | lib/ast/passes/resolve_includes_pass.cpp:77-101 | Where a template and all files include by absolute names only, resolution gives the same tree or the same error for every base path. |
| `IncludePaths.RendersAnywhere` | lib/ast/passes/resolve_includes_pass.cpp:77-101 | ... and rendering the same text. |
| `IncludePaths.ErrorIsLocated` | lib/ast/passes/resolve_includes_pass.cpp:23-35 | When resolution fails, at whatever depth, the error names a file that is missing, or a file together with a variable that its resolved tree mentions and its include does not map, or a clone that is broken, or the depth. |
| `Semantics.LastBindingFound` | lib/parser/syntax.y:48-58 | A name that an include maps more than once has its last expression. |
| `Semantics.AttributeOfEntry` | src/php/php_bindings_functions.c:182-210 | In an array or object with distinct keys every entry gives its own value as the attribute of that name, wherever it stands. |
| `Semantics.AttributeHasEntry` | src/php/php_bindings_functions.c:182-210 | An attribute that is there is the value of an entry with that key, and where keys are distinct of the only one. |
| `Arrays.CompiledAttribute` | src/php/php_bindings.cpp:359-375 | The compiled function that prints an attribute that is there returns having printed the value of an entry with that key, of every such entry where keys are distinct. |
| `Arrays.JavascriptAttribute` | lib/backends/javascript/javascript_visitor.cpp:266-269 | The printed JavaScript returns the text of such an entry, where the engine computes the base as the interpreter does. |
| `Arrays.ElementsRender` | src/php/php_bindings_functions.c:234-281 | A loop that prints key and value lists all elements of an array, from the first to the last. |
| `Arrays.CompiledElements` | src/php/php_bindings.cpp:120-197 | The compiled loop prints the same listing. |
| `Arrays.JavascriptElements` | lib/backends/javascript/javascript_visitor.cpp:139-245 | The printed JavaScript returns the same listing. |
| `JavascriptSource.FunctionRenders` | lib/backends/javascript/javascript_visitor.cpp:49-245 | The lines that the visitor writes for a template, read by their braces and run line by line, called with data or without: they return the text that the template renders in the data, an empty object for none, or throw where rendering stops with the text so far in `buffer`, in an engine that agrees with the library on what rendering evaluates. |
| `JavascriptSource.FunctionRuns` | lib/backends/javascript/javascript_visitor.cpp:49-245 | For any statement tree, lowered or not: running its printed function returns what the tree appends, or throws where the tree does, and with the same locals. |
| `JavascriptSource.FunctionReads` | lib/backends/javascript/javascript_visitor.cpp:56-75 | The written lines always form one function; reading them by their braces alone gives the header, each statement with its bodies, and the return. |
| `JavascriptSource.ReadsStatement` | lib/backends/javascript/javascript_visitor.cpp:77-245 | The lines of a statement are read as that statement, whatever follows them. |
| `JavascriptSource.ReadsElse` | lib/backends/javascript/javascript_visitor.cpp:97-137 | Chains of `else if` of any length, with or without a last `else`, are read with each body at its own condition. |
| `JavascriptSource.RunsStatement` | lib/backends/javascript/javascript_visitor.cpp:77-245 | What was read of a statement does what the statement does, to the locals, to `buffer` and to control. |
| `JavascriptSource.RunsEach` | lib/backends/javascript/javascript_visitor.cpp:168-228 | A `for` that visits own and inherited keys, with its `hasOwnProperty` line, its value line and the line that clears the flag, does what the loop of the tree does, for all keys that are left. |
| `Javascript.JavascriptRenders` | lib/backends/javascript/javascript_visitor.cpp:49-327 | In an engine that agrees with the library on what rendering evaluates, running the statement tree of a resolved template leaves in the buffer exactly what the interpreter renders, and stops where it stops. |
| `Javascript.ExecRenders` | lib/backends/javascript/javascript_visitor.cpp:77-245 | The same at any point of the tree, for any shadow map whose entries hold their variables' values, and no local of an enclosing loop changes. |
| `Javascript.ExecForRenders` | lib/backends/javascript/javascript_visitor.cpp:139-245 | A loop with its iterable, flag and else body renders as the interpreter's loop, the else body running exactly when there are no elements. |
| `Javascript.ExecLoopRenders` | lib/backends/javascript/javascript_visitor.cpp:168-228 | Over all keys that the emitted `for` visits, the body runs once for each own one in order, and the flag is cleared if there was one and left alone otherwise. |
| `Javascript.LinkedIteration` | lib/backends/javascript/javascript_visitor.cpp:185-195 | Shadowing the loop's names by fresh identifiers and assigning these binds exactly what the interpreter binds, the value winning over a key of the same name. |
| `Javascript.LoweredExprValue` | lib/backends/javascript/javascript_visitor.cpp:252-327 | Each name resolves to the innermost binding or to `data`; with member access that throws on null, with lazy logical operators that yield an operand and with literals as the engine reads their text, a renamed expression has the interpreter's value, or in a condition its truth, where the engine agrees with the library on the operations and literals it meets. |
| `Javascript.LogicalTruth` | lib/backends/javascript/javascript_visitor.cpp:322-327 | The operand that a logical operator yields has the truth that the interpreter gives the combination, if the operand that is skipped has a value. |
| `Portability.PlainThroughout` | lib/backends/javascript/javascript_visitor.cpp:266-327 | In a folded, well-typed tree whose logical operators stand in conditions or combine booleans and whose literals are read as they were meant, and on data from which the attributes can be fetched, an ECMAScript engine agrees with the interpreter on everything that rendering evaluates. |
| `Portability.NullBaseThrows` | lib/backends/javascript/javascript_visitor.cpp:266-269 | For `{{ a.b }}` with a absent the JavaScript fails, while the interpreter shows null and goes on. |
| `Portability.SkippedCallFails` | lib/backends/javascript/javascript_visitor.cpp:322-327 | Where a condition is `a` or else `f(1)`, with `a` true and the call failing, the JavaScript goes on with the body, while the interpreter fails. |
| `Portability.OperandIsPrinted` | lib/backends/javascript/javascript_visitor.cpp:322-327 | Printing a disjunction whose left operand is the string x, the JavaScript prints x, while the interpreter shows a boolean. |
| `Portability.LiteralIsRounded` | lib/backends/javascript/javascript_visitor.cpp:288-291 | Testing whether x equals a double literal, where it does: the interpreter prints the body, and the JavaScript prints it if and only if reading the literal with six decimals gives its value back. |
| `Portability.TinyLiteral` | lib/backends/javascript/javascript_visitor.cpp:288-291 | The literal 0.0000001 is read as zero by every ECMAScript engine. |
| `JavascriptVisitors.JavascriptVisitor.Visit` | lib/backends/javascript/javascript_visitor.cpp:49-75 | Writes header, statements and footer of the lowered tree, restores shadow map and indentation, and fails exactly on includes. |
| `JavascriptVisitors.JavascriptVisitor.Statement` | lib/backends/javascript/javascript_visitor.cpp:77-100 | Any statement is written as the lines of its lowered tree, advances the counter as lowering says, and leaves shadow map and indentation as they were. |
| `JavascriptVisitors.JavascriptVisitor.StatementList` | lib/backends/javascript/javascript_visitor.cpp:77-82 | The same for the loop over a list. |
| `JavascriptVisitors.JavascriptVisitor.IfBlock` | lib/backends/javascript/javascript_visitor.cpp:102-137 | The same for else-if chains of any length, each arm closing the block before it. |
| `JavascriptVisitors.JavascriptVisitor.ElseArm` | lib/backends/javascript/javascript_visitor.cpp:116-136 | What follows a body is written as lowered: nothing, an else body or the rest of the chain, closing the brace that is open. |
| `JavascriptVisitors.JavascriptVisitor.ForBlock` | lib/backends/javascript/javascript_visitor.cpp:139-245 | The same for loops, with the identifiers of the counter's new value. |
| `JavascriptVisitors.JavascriptVisitor.ShadowedBody` | lib/backends/javascript/javascript_visitor.cpp:185-214 | The body is lowered under the shadowing names, and the shadow map afterwards equals the one before, for all clashes of names. |
| `JavascriptVisitors.JavascriptVisitor.LoopElse` | lib/backends/javascript/javascript_visitor.cpp:230-244 | The else body is written inside a test of the loop's flag if there is one, and nothing is written otherwise. |
| `JavascriptVisitors.CodeEmitter.StartLine` | lib/backends/javascript/code_emitter.hpp:22-27 | The loop appends as many tabs as the indentation counts. |
| `JavascriptVisitors.CodeEmitter.Line` | lib/backends/javascript/code_emitter.hpp:34-39 | Appends indentation, text and line end. |
| `JavascriptVisitors.FunctionNests` | lib/backends/javascript/javascript_visitor.cpp:56-75 | Read from left to right, the whole function is indented by its open braces on every line, never closes one that is not open, and leaves none open. |
| `JavascriptVisitors.PrintNests` | lib/backends/javascript/javascript_visitor.cpp:77-245 | The lines of any statement keep the number of open braces and are indented by it. |
| `JavascriptVisitors.PrintElseNests` | lib/backends/javascript/javascript_visitor.cpp:116-136 | The rest of an else-if chain closes exactly the one brace left open before it. |
| `JavascriptVisitors.PrintLoop` | lib/backends/javascript/javascript_visitor.cpp:156-244 | The lines written for a loop, piece by piece, are those of its lowered statements. |
| `StringLiterals.ProcessStringLiteral` | lib/parser/syntax.l:106-130 | The shifting loop ends, stays within the literal, leaves its text with each backslash dropped and the next character kept and a NUL behind it, and touches neither the opening quote nor anything after the literal; the copy returned is that text up to its first NUL. |
| `StringLiterals.NulEndsLiteral` | lib/parser/syntax.l:128-129 | The copy is the whole unescaped text if and only if the literal has no NUL in it. |
| `StringLiterals.MoveDown` | lib/parser/syntax.l:115 | Moves the rest of the text down by one and changes nothing else. |
| `StringLiterals.UnescapeEscape` | lib/parser/syntax.l:118-119 | Unescaping inverts escaping of backslashes and quotes, for every string and either quote. |
| `StringLiterals.UnescapeLength` | lib/parser/syntax.l:112-124 | One character is dropped per escape, and a text without backslash is unchanged (and only such a text). |
| `TemplateBuffers.TemplateBuffer.constructor` | src/php/php_b2.cpp:265-271 | A new buffer has 200 characters, all of them free. |
| `TemplateBuffers.TemplateBuffer.Reserve` | src/php/php_bindings_functions.c:21-25 | Afterwards n more characters, the terminator among them, fit, the text is kept, and a reallocation leaves less than a chunk, or than the need, to spare. |
| `TemplateBuffers.TemplateBuffer.Add` | src/php/php_bindings_functions.c:17-32 | The text grows by the piece, is NUL-terminated, and the room left is between 1 and the larger of 256 and the longest piece plus one. |
| `TemplateBuffers.AddAll` | src/php/php_bindings_functions.c:17-32 | After any sequence of appends the buffer holds the concatenation of the pieces within those bounds. |
| `LoweringTheorems.TemplateRuns` | lib/backends/llvm/llvm_visitor.cpp:20-33 | The compiled function of any template whose native instructions are exact, on any data, reaches its return having printed exactly what the template renders, also when an operation fails halfway. If attributes are taken of variables only, no storage is used after its end, whatever is leaked; if no counted value is an argument, no temporary is created over a live one and none is left unless rendering failed. |
| `LoweringHistory.TemplateConserves` | src/php/php_bindings.cpp:420-454 | Told from the instructions of the whole run alone: if the template takes attributes of variables only, no library call gets at a value whose storage has ended; if it passes no counted value to a call, no temporary is created over a live one; and with both, unless rendering fails, every temporary is destroyed exactly as often as it is created. |
| `LoweringHistory.RunsConserve` | src/php/php_bindings.cpp:420-439 | On any run of any block graph that is in order, a temporary has been created as often as it has been destroyed, and once more while it exists. |
| `LoweringHistory.MarksTellTheRun` | src/php/php_bindings.cpp:359-454 | On any run, the machine is marked at the end if and only if some instruction on the way got at, destroyed or created a temporary out of turn. |
| `LoweringTheorems.OnlyEnd` | lib/backends/llvm/llvm_visitor.cpp:20-33 | Every return that is reached is that one. |
| `LoweringTheorems.NeverUndefined` | lib/backends/llvm/llvm_visitor.cpp:58-176 | No step of any run reads a register before it is set, branches on something that is no boolean or falls off a block. |
| `LoweringExamples.ArgumentIsLeaked` | src/php/php_bindings.cpp:325-351 | The compiled function of `{{ f(a + b) }}`, where both succeed, returns with a temporary still alive and has used nothing after its end. |
| `LoweringExamples.AttributeDangles` | src/php/php_bindings.cpp:359-375 | `{{ c }}` included `using a + b` resolves to printing an attribute of the sum, and its compiled function uses storage after its end if and only if the sum has the attribute c; an absent one is static. |
| `LoweringExamples.NotEqualMissesNaN` | lib/backends/llvm/llvm_visitor.cpp:352-353 | A template that prints x if `1.5 % 0.0 != 1.0` renders x, and its compiled function prints nothing. |
| `LoweringExamples.BooleanIsNegative` | lib/backends/llvm/llvm_visitor.cpp:336-353 | A template that prints x if `true == 1.0` renders x with a library that says so, and its compiled function prints nothing. |
| `LoweringExamples.TestsSurviveFolding` | lib/ast/passes/fold_constant_expressions_pass.cpp:60-106 | Both tests are well typed and folding leaves them as they are. |
| `LoweringStatements.StmtRuns` | lib/backends/llvm/llvm_visitor.cpp:35-176 | From any point where the overridden variables hold the environment, the code of a statement whose native instructions are exact appends the rendered text and reaches its insertion point, or returns early with exactly the text rendered so far; earlier registers keep their values, the tracked temporaries are alive (for a releasable statement, exactly the counted ones), and where attributes are taken of variables only no storage is used after its end. |
| `LoweringStatements.IfRuns` | lib/backends/llvm/llvm_visitor.cpp:58-95 | The same for a conditional: the branch taken is the interpreter's and both join in the merge block. |
| `LoweringStatements.ForRuns` | lib/backends/llvm/llvm_visitor.cpp:97-176 | The same for a loop: a value without elements goes to the else block and never to the body. |
| `LoweringStatements.LoopRuns` | lib/backends/llvm/llvm_visitor.cpp:110-163 | The do-while loop, entered at any element, runs the body once for it and each later one in order, then goes to the block after the loop. |
| `LoweringStatements.IterationRuns` | lib/backends/llvm/llvm_visitor.cpp:119-163 | One iteration binds the element, renders the body, releases the key once and moves to the next element or out. |
| `LoweringStatements.PrintRuns` | lib/backends/llvm/llvm_visitor.cpp:48-56 | Printing appends the shown value and then releases it, if it is a counted variant; storage has then been used after its end if and only if an attribute of a temporary was found in the expression. |
| `LoweringLoops.InitRuns` | src/php/php_bindings_functions.c:234-248 | The initial test goes to the loop block at the first element if there is one, else to the else block. |
| `LoweringLoops.FetchRuns` | src/php/php_bindings_functions.c:255-274 | Fetching stores the current key as a new temporary and the current value as a borrowed one. |
| `LoweringLoops.BodyReady` | lib/backends/llvm/llvm_visitor.cpp:111-130 | After fetching, the overridden variables hold the environment with key and value bound, the value winning over a key of the same name. |
| `LoweringLoops.DropRuns` | lib/backends/llvm/llvm_visitor.cpp:137-143 | Dropping the loop variables runs through and keeps text, registers and the match of counts and temporaries. |
| `LoweringLoops.NextRuns` | src/php/php_bindings_functions.c:276-279 | The closing test advances the position and goes back to the loop block if an element is left, else out. |
| `LoweringCorrect.ExprRuns` | lib/backends/llvm/llvm_visitor.cpp:183-368 | The code of an expression whose native instructions are exact prints nothing and ends with the interpreter's value in its operand, or returns early exactly when evaluation fails; it uses storage after its end exactly where a value used inside it was an attribute found in a temporary, and never if attributes are taken of variables only. |
| `LoweringCorrect.StaticType` | lib/backends/llvm/llvm_visitor.cpp:209-368 | An expression that is no variant, and whose native instructions are exact, compiles to an operand of its `valueType()`. |
| `LoweringCorrect.NativeBinaryRuns` | lib/backends/llvm/llvm_visitor.cpp:254-279 | Arithmetic with a double converts the other operand and computes the double result the interpreter computes. |
| `LoweringCorrect.NativeComparisonRuns` | lib/backends/llvm/llvm_visitor.cpp:313-367 | Integer, boolean and double comparisons that are not doubtful compute what the interpreter decides. |
| `LoweringCorrect.NativeUnaryRuns` | lib/backends/llvm/llvm_visitor.cpp:291-300 | A sign on a number that is no variant costs nothing, and negating a boolean computes its negation. |
| `LoweringCorrect.NotEqualDiffersOnNaN` | lib/backends/llvm/llvm_visitor.cpp:313-353 | The ordered comparisons of LLVM differ from those of C++ if and only if the operator is `!=` and an operand is NaN. |
| `LoweringRuns.CheckRuns` | src/php/php_bindings.cpp:54-66 | A true result goes on at the insertion point, a false one returns from the function at once. |
| `LoweringRuns.VariantBinaryRuns` | src/php/php_bindings.cpp:231-264 | Wraps both operands, calls the library, uses both once, and yields its result as a new temporary with one reference and both operands released, or returns early when it fails. |
| `LoweringRuns.VariantComparisonRuns` | src/php/php_bindings.cpp:199-229 | The same with a boolean as the result. |
| `LoweringRuns.VariantUnaryRuns` | src/php/php_bindings.cpp:266-294 | The same with one operand. |
| `LoweringRuns.AttributeLookupRuns` | src/php/php_bindings_functions.c:182-210 | Yields the attribute, in the storage of the base if it is there and in none if it is absent; the base is used once and released, and destroyed if that was its only reference. |
| `LoweringRuns.MethodCallRuns` | src/php/php_bindings.cpp:313-357 | Passes the wrapped arguments in order, uses each of them once, and yields the result as a new temporary with one reference, or returns early when the call fails. |
| `LoweringRuns.ReleaseRuns` | src/php/php_bindings.cpp:420-439 | Releasing a value keeps registers and text and uses nothing after its end; a last reference ends the temporary, and afterwards the tracked temporaries are again those that are still counted. |
| `LoweringFrames.LowerExprGrown` | src/php/php_bindings.cpp:186-454 | Lowering an expression leaves the count of every other value unchanged (or, if a counted value is an argument of a call in it, no smaller) and one owed reference on its result; the overrides are unchanged, finished blocks stay as they are and one block is open. |
| `LoweringFrames.LowerStmtGrown` | lib/backends/llvm/llvm_visitor.cpp:35-176 | Lowering any statement restores the overridden variables, for all nestings and clashes of names; unless a counted value is an argument of a call in it, it leaves all earlier counts unchanged and every new one at zero or not counted. |
| `LoweringBalance.ExprCountsExactly` | src/php/php_bindings.cpp:325-351 | Lowering an expression leaves every count exactly what is owed if and only if no argument of a call in it is counted. |
| `LoweringBalance.StmtCountsExactly` | src/php/php_bindings.cpp:325-454 | The same for any statement in any scope, where the counted variables are the keys of the enclosing loops that are not hidden. |
| `LoweringBalance.TemplateCountsExactly` | src/php/php_bindings.cpp:325-454 | A compiled template has released every reference by its end if and only if it passes no counted value to a call. |
| `LoweringBalance.PrintedExactly` | src/php/php_bindings.cpp:325-375 | The compiled function of a printed expression that evaluates has used storage after its end if and only if some attribute in it is taken of a temporary and is there, and has left a temporary alive if and only if a counted value is an argument of a call. |
| `LoweringStorage.LosesExactly` | src/php/php_bindings.cpp:359-375 | Every value computed inside an expression is used, so following storage step by step goes wrong exactly when somewhere an attribute is found in a temporary. |
| `LoweringStorage.UsableUnlessGone` | src/php/php_bindings.cpp:359-454 | While counts do not drop, the value of an expression can be used at any later point unless it was an attribute found in a temporary. |
| `LoweringFrames.GrownRelease` | src/php/php_bindings.cpp:420-439 | An owed reference can always be released, and then exactly one less is owed. |
| `LoweringFrames.GrownNewReference` | src/php/php_bindings.cpp:441-454 | A new reference to a variable owes exactly one more. |
| `LoweringFrames.VariantBinaryGrown` | src/php/php_bindings.cpp:231-264 | A variant operation never fails to lower, pays back what its operands owe and owes one reference on its result. |
| `LoweringFrames.MethodCallGrown` | src/php/php_bindings.cpp:313-357 | A call owes one reference on its result; counts stay exact if no argument is counted. |
| `LoweringFrames.RestoreUndoes` | lib/backends/llvm/llvm_visitor.cpp:116-159 | Restoring key and then value gives back the override map from before the loop, also when both have one name. |
| `LoweringFrames.IfGrows` | lib/backends/llvm/llvm_visitor.cpp:66-94 | Building a conditional finishes the block it started in and changes no block finished before; only the merge block is open at the end. |
| `LoweringFrames.LoopGrows` | lib/backends/llvm/llvm_visitor.cpp:101-173 | The same for a loop, whose only open block at the end is the one after it. |
| `LoweringGraph.FunctionIsWellFormed` | lib/backends/llvm/llvm_backend.cpp:83-86 | Of every template that compiles: the entry block comes first and no branch goes back to it, every block was appended to the function exactly once and ends in one terminator, all targets are blocks of the function, and no register is defined by two instructions. |
| `LoweringScopes.DefinedBeforeUse` | lib/backends/llvm/llvm_backend.cpp:83-86 | Of every template that compiles: on every path from the entry, whether or not a run can take it, every instruction of the last block, and the condition of its branch, uses only registers that instructions earlier on the path define. |
| `LoweringScopes.FunctionIsScoped` | lib/backends/llvm/llvm_backend.cpp:83-86 | There are sets of registers, one for each block and none for the entry, that suffice for the uses in the block and that every block passes on to its successors. |
| `LoweringScopes.StmtScoped` | lib/backends/llvm/llvm_visitor.cpp:35-176 | Lowering a statement where the overridden variables and the loop registers are available keeps such sets, extends them to the new blocks, and loses nothing at the insertion point. |
| `LoweringGraph.StmtLaid` | lib/backends/llvm/llvm_visitor.cpp:58-176 | Lowering a statement appends each block it creates exactly once, adds no branch that leaves the function, and defines only registers that nothing defined before. |
| `LoweringAccepts.TemplateAccepted` | lib/backends/llvm/llvm_visitor.cpp:58-181 | A template compiles if and only if its conditions are booleans of LLVM type i1, its iterables variants, its operands of types LLVM accepts, no include is left, and no loop over a loop variable contains another loop over it. |
| `LoweringAccepts.StmtAccepted` | src/php/php_bindings.cpp:131-146 | The same for any statement in scope, together with exactly which active loops lose their metadata. |
| `LoweringAccepts.ExprAccepted` | lib/backends/llvm/llvm_visitor.cpp:183-368 | An expression compiles if and only if it is accepted, to an operand of the stated type. |
| `LoweringAccepts.SameVariableTwice` | src/php/php_bindings.cpp:142-146 | Two nested loops over one loop variable do not compile: the inner one erases the outer one's metadata. |
| `LlvmVisitors.LLVMVisitor.Visit` | lib/backends/llvm/llvm_visitor.cpp:20-33 | From an empty function, the visitor ends with the graph of the lowering function, or with its error. |
| `LlvmVisitors.LLVMVisitor.Statement` | lib/backends/llvm/llvm_visitor.cpp:42-46 | Every statement moves blocks, insertion point, overrides, loop metadata and counts as lowering says. |
| `LlvmVisitors.LLVMVisitor.StatementList` | lib/backends/llvm/llvm_visitor.cpp:35-40 | The same for the loop over a list, stopping at the first error. |
| `LlvmVisitors.LLVMVisitor.PrintBlock` | lib/backends/llvm/llvm_visitor.cpp:48-56 | The same for printing, with the release of a variant. |
| `LlvmVisitors.LLVMVisitor.IfBlock` | lib/backends/llvm/llvm_visitor.cpp:58-95 | The same for conditionals; one whose condition is not i1 is an error. |
| `LlvmVisitors.LLVMVisitor.ForBlock` | lib/backends/llvm/llvm_visitor.cpp:97-176 | The same for loops. |
| `LlvmVisitors.LLVMVisitor.LoopBody` | lib/backends/llvm/llvm_visitor.cpp:113-175 | Binding, body and everything after it move the state as lowering from the start of the body says. |
| `LlvmVisitors.LLVMVisitor.BoundBody` | lib/backends/llvm/llvm_visitor.cpp:132-175 | The same once the variables are bound. |
| `LlvmVisitors.LLVMVisitor.AfterBody` | lib/backends/llvm/llvm_visitor.cpp:137-175 | The same once the body is compiled. |
| `LlvmVisitors.LLVMVisitor.BeginLoop` | lib/backends/llvm/llvm_visitor.cpp:101-111 | Creates the three blocks, emits the initial test in the current one and moves to the loop block, with the iterable's metadata in the map. |
| `LlvmVisitors.LLVMVisitor.BindVariables` | lib/backends/llvm/llvm_visitor.cpp:113-130 | Overrides key and then value, and returns what both names stood for before. |
| `LlvmVisitors.LLVMVisitor.RestoreOld` | lib/backends/llvm/llvm_visitor.cpp:145-159 | Gives a name its earlier override, or none if it had none. |
| `LlvmVisitors.LLVMVisitor.EndBody` | lib/backends/llvm/llvm_visitor.cpp:137-166 | Releases the loop variables, restores the names, emits the closing test and moves to the else block. |
| `LlvmVisitors.LLVMVisitor.FinishLoop` | lib/backends/llvm/llvm_visitor.cpp:170-175 | Joins after the loop, erases the metadata and releases the iterable. |
| `LlvmVisitors.LLVMVisitor.Expression` | lib/backends/llvm/llvm_visitor.cpp:183-368 | Every expression gives the operand and the state that lowering says, or its error. |
| `LlvmVisitors.LLVMVisitor.VariableReferenceExpression` | lib/backends/llvm/llvm_visitor.cpp:183-192 | An overridden variable gets one more reference, any other one is looked up. |
| `LlvmVisitors.LLVMVisitor.Overriding` | lib/backends/llvm/llvm_visitor.cpp:186-187 | Reading the map may insert a null entry, which changes no override. |
| `LlvmVisitors.LLVMVisitor.BinaryOperation` | lib/backends/llvm/llvm_visitor.cpp:235-279 | Chooses library, integer or double arithmetic by the operands' types. |
| `LlvmVisitors.LLVMVisitor.Comparison` | lib/backends/llvm/llvm_visitor.cpp:308-367 | The same choice for comparisons. |
| `LlvmVisitors.LLVMVisitor.UnaryOperation` | lib/backends/llvm/llvm_visitor.cpp:287-300 | Library operation on a variant, else no instruction, negation or complement. |
| `LlvmVisitors.PHPBindings.CreateRetVoidIfCallFails` | src/php/php_bindings.cpp:54-66 | Branches to two new blocks of the function, returns in the second and goes on in the first. |
| `LlvmVisitors.PHPBindings.VariableGoesOutOfScope` | src/php/php_bindings.cpp:420-439 | Counts down, emits the destruction at zero, does neither for -1, and fails for a value without count. |
| `LlvmVisitors.PHPBindings.GetNewReferenceForVariable` | src/php/php_bindings.cpp:441-454 | Counts up, except for -1, and fails for a value without count. |
| `LlvmVisitors.PHPBindings.CreateVariantComparison` | src/php/php_bindings.cpp:199-229 | Wraps, calls, checks and releases as the function specified in the lowering. |
| `LlvmVisitors.PHPBindings.CreateVariantBinaryOperation` | src/php/php_bindings.cpp:231-264 | The same, with the result counted once. |
| `LlvmVisitors.PHPBindings.CreateVariantUnaryOperation` | src/php/php_bindings.cpp:266-294 | The same with one operand. |
| `LlvmVisitors.PHPBindings.CreateVariableLookup` | src/php/php_bindings.cpp:296-311 | A looked-up value is never to be released. |
| `LlvmVisitors.PHPBindings.WrapArguments` | src/php/php_bindings.cpp:324-332 | The loop wraps, from left to right, exactly the arguments that are no variants. |
| `LlvmVisitors.PHPBindings.CreateMethodCall` | src/php/php_bindings.cpp:313-357 | Wraps, calls, counts the result once and tests it; the arguments' counts are left alone. |
| `LlvmVisitors.PHPBindings.CreateGetAttribute` | src/php/php_bindings.cpp:359-375 | The attribute is never to be released, the base is released after the lookup. |
| `LlvmVisitors.PHPBindings.CreateForLoopInit` | src/php/php_bindings.cpp:120-138 | Records table and position under the iterable and yields the test that the table is not null. |
| `LlvmVisitors.PHPBindings.CreateForLoopGetVariables` | src/php/php_bindings.cpp:154-197 | Fetches into new registers for the variables asked for, the key counted once and the value never. |
| `LlvmVisitors.PHPBindings.CreateForLoopNextIteration` | src/php/php_bindings.cpp:144-152 | Uses the metadata recorded under the iterable; when that is gone the call gets null operands, an error here. |
| `LlvmVisitors.PHPBindings.CreateForLoopCleanup` | src/php/php_bindings.cpp:140-142 | Erases the metadata of the iterable and of nothing else. |

## Left out

- Trees are values: child pointers reset in place, moves and deletes are modelled as rebuilt trees, so double frees and leaks of tree nodes, on exception paths or elsewhere, are not covered. Then bodies and loop bodies are always present, as the parser makes them.
- StoreChild: for an empty list at the front of its parent the code decrements `begin()`; the model gives this iterator the index -1 and does not ask whether the library defines it.
- Includes: an include depth bounds the recursion, because cyclic includes do not terminate in the code; `Includes.EnoughDepth` removes the bound for acyclic ones. Files are a map from path to parsed tree. The mapping of an include, an unordered map in the code, is the list of its bindings, of which the last one for a name counts.
- Run-time library: conversions, operations, comparisons and method calls of Zend are uninterpreted functions that may fail; the arithmetic and the decimal spelling of doubles belong to the platform and are parameters.
- Undefined behaviour of C++ on signed overflow and wrong casts is an error outcome of folding.
- IR: an `alloca`, the call that fills it and the load of its result are one instruction. LLVM's constant folding in the builder, the types its verifier checks, its optimiser, JIT and linker, and the cache of `LLVMBackend::createFunction` are not part of this model.
- Temporaries: a destroyed temporary keeps its register's value in the machine, which records the use, so the text of a run is defined even where it uses one. Values that the caller owns, and the static null of an absent attribute, have no storage that could end. On early returns the code releases nothing, and nothing is claimed there about what is left alive.
- State after a lowering error: the visitor's fields are not described once it has thrown.
- TemplateRuns: requires that the compiler's own instructions compute the interpreter's values, because integer arithmetic on i64 wraps and its division is `exact`; `Exactness.FoldedIsExact` says that after folding exactly the doubtful comparisons are excluded by this.
- JavaScript: a line is its kind with its identifiers and expressions instead of text; identifiers are a kind and a number; a literal is its value, which the engine reads as it would the six decimals or the digits written for it; escaping, operators printed without parentheses, the short spelling of operators and the undefined-check option are left out. Null stands for null and undefined. What an engine's operators compute on operands other than null is a parameter, of which `Portability.EcmaScript` says what the standard does.
- Add: lengths are unbounded, so the truncation of a string length to `int` is not modelled, nor is failure to allocate.
- Parser: the generated automata, whitespace and operator precedence are left out. The elseif action overwrites the previous tail (lib/parser/syntax.y:184), so arms may be lost before the tree that this model starts from.
- src/simple, PrintVisitor, bin2c, the command-line tools and the test runner: disabled, or easy members and I/O.
