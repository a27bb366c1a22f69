# Verified models of the algorithms around MongooseIM

MongooseIM's repository carries, besides the server, the JavaScript that its
documentation and its Swagger pages run on. This project models the algorithms
of both that are hardest to get right, in Dafny, and proves what they compute.
Each model has the branches, edge cases and constants of its source; where the
source keeps state in objects and loops, so does the model, and its methods are
proved against functions that further lemmas are about.

| files | models |
|---|---|
| `ToFixed.dfy`, `Decimal.dfy`, `Numbers.dfy` | `Number.prototype.toFixed` over six base-10^7 limbs |
| `Splice.dfy` | `Array.prototype.splice` on sparse arrays |
| `Calendar.dfy`, `IsoDate.dfy`, `IsoDateTexts.dfy` | the Gregorian day count, `toISOString` and `Date.parse`, and what each text parses to |
| `LastIndexOf.dfy` | `String.prototype.lastIndexOf` |
| `Handlebars*.dfy` | the Handlebars compiler: paths and what they name, tree, opcodes, two-level operand stack, emitted code, the table of nested programs, and a runtime |
| `HighlightMerge.dfy`, `HighlightSpans.dfy`, `HighlightStream.dfy`, `HighlightHtml.dfy` | the merge of markup and highlighting in highlight.js, as pieces and as the text written |
| `Marked*.dfy` | marked's block lexer and popping parser, and the inline lexer that all blocks share: the order of their rules, what each block renders as, and how blocks affect each other |
| `Prettify*.dfy` | prettify's character-class rewriting and tab expander |
| `CommandHelp.dfy`, `AccessRules.dfy`, `Router.dfy` | MongooseIM's usage text, access rules and routing chain |
| `Sequences.dfy`, `Wrappers.dfy` | reversal and regrouping, options and results, for the other modules |

`dafny verify dfyconfig.toml` checks all of it.

## Where the code does not do what it is for

For each of these there is the exact condition under which the code is right,
and a lemma with an input for which it is not.

- toFixed refuses digit counts strictly between -1 and 0, which ECMA-262 takes as 0 (`ToFixed.FloorOfDigits`, `ToFixed.HalfRefused`).
- splice returns an array that is too short when the last removed element is a hole (`Splice.RemovedElements`, `Splice.LastHoleShortens`).
- lastIndexOf returns the first of two overlapping occurrences when the needle has a border, and -1 for the empty needle at position 0 (`LastIndexOf.AlwaysLastIff`, `LastIndexOf.BorderMisses`, `LastIndexOf.EmptyFound`).
- highlight.js leaves elements such as `abbr` open, because their name contains `br` (`HighlightStream.HighlightedWellFormedIff`, `HighlightStream.AbbreviationStaysOpen`), and does not escape quotes in attribute values (`HighlightHtml.HtmlReadsBackIff`, `HighlightHtml.QuoteBreaksTag`).
- marked renders a block with a bare address differently when an earlier block leaves an anchor open, because the inline lexer's flag is never reset (`MarkedNeighbours.RenderedAloneIff`, `MarkedNeighbours.AnchorChangesNeighbour`).
- prettify turns a class that starts with an escaped caret into a negated one (`PrettifyClassText.RewriteMeaning`, `PrettifyClassText.CaretMisread`).
- Merging a host's access rules moves an allow-all that came from an earlier host list behind the later ones, which changes decisions (`AccessRules.MergeTwiceDecides`, `AccessRules.MergeTwiceDiffers`).
- A routing filter that changes the addresses is not reported as a failed module: it ends the run with an uncaught error (`Router.CrashIff`, `Router.RedirectCrashes`).
- In Handlebars the first of two hash pairs with the same key counts, since pairs are emitted in reverse (`HandlebarsTranslation.FirstPairCounts`, `HandlebarsTranslation.RepeatedKey`).
- Handlebars cannot generate a block over a data reference, whose name is undefined (`HandlebarsTranslation.GenerateSucceedsIff`, `HandlebarsTranslation.DataBlockRaises`). The input is a program tree built by hand, which `compile` accepts: template text with such a block is rejected before (`prepareBlock` and `RawBlockNode`, doc/swagger/lib/handlebars-2.0.0.js:27).
- Handlebars reuses the code of a nested program for a later one that is equal but for a comment, and so may return a value where the text of the value is due (`HandlebarsTemplates.OutputsKeptIff`, `HandlebarsTemplates.CommentChangesBody`, `HandlebarsTemplates.CommentMeaning`).
- By the same reuse, a Handlebars function may not pass on the depths that a program nested in it reads (`HandlebarsDepths.AllPassIff`, `HandlebarsTemplates.DepthsLost`).

## How things are modelled

- JavaScript numbers are reals where rounding is not the point. In toFixed it is: a value is a double, the accumulator holds exact halves, and the operations on it are only defined where the exact result is a double; `ToFixed.RoundedQuotient` accounts for the one division whose result is rounded.
- Regular expressions in marked are functions of which only nonempty prefixes (and shorter insides) are assumed, that no tag both opens and closes an anchor, and that only the rule `def` defines links. The exact condition for rendering blocks alone also uses that a bare address begins with what none of the later rules but text matches, and that text matches anything. The date expression is modelled in full.
- Handlebars templates are syntax trees, emitted code is an expression tree with its own semantics, and helpers, lambdas, partials and escaping are arbitrary functions over an abstract world that they may change. Registers, that is the emitted local variables, are part of the state. A property read gives a value that does not depend on that world. Functions of nested programs are calls of the runtime; `HandlebarsTemplates` says what each call computes that runs the code of its entry, and `HandlebarsRuntime` gives a runtime in which all calls that end do. An `ambiguousBlockValue` over what is no variable, which no compiled template contains, emits an assignment that is only evaluated.
- In marked the parser, and so every block of a document, uses one inline lexer object; its flag is part of the state that rendering a block starts from and ends in.
- A DOM is a tree of texts, elements and other nodes; which elements are void is a parameter.
- In the Erlang modules the checks of conditions, the filters and the routers are arbitrary functions; exceptions are outcomes.

## Model

| member | source | states |
|---|---|---|
| `ToFixed.ToFixed` | doc/swagger/lib/es5-shim.js:1653-1735 | The whole of toFixed, for every double and every digit count: RangeError exactly when the floored count is outside 0..20, 'NaN', the native string from 10^21 on, and otherwise an optional minus sign and the fixed notation with exactly f decimals of the half-up rounding of x * 10^f without its sign. |
| `ToFixed.RoundedIsNearest` | doc/swagger/lib/es5-shim.js:1653-1735 | The printed integer n is the one section 15.7.4.5 of ECMA-262 5.1 asks for, and the only one: n / 10^f is nearest to x, the larger of two equally near. |
| `ToFixed.FixedNotationUnique` | doc/swagger/lib/es5-shim.js:1722-1732 | A fixed notation is determined by the number and the count of decimals, so the contract of toFixed fixes every character. |
| `ToFixed.PlacePointNotation` | doc/swagger/lib/es5-shim.js:1722-1732 | Placing the decimal point, in all three cases, yields the fixed notation of the digits. |
| `ToFixed.FloorOfDigits` | doc/swagger/lib/es5-shim.js:1656-1662 | Flooring the digit count agrees with ECMA's ToInteger exactly when the count is not strictly between -1 and 0; such a count is wrongly refused. |
| `ToFixed.HalfRefused` | doc/swagger/lib/es5-shim.js:1656-1662 | The count -0.5 is refused although ToInteger makes it 0. |
| `ToFixed.MagnitudeDigits` | doc/swagger/lib/es5-shim.js:1682-1720 | The digits of the magnitude read as x * 10^f rounded half up, on both the e > 0 and the e <= 0 path and for x up to 10^-21. |
| `ToFixed.Mantissa` | doc/swagger/lib/es5-shim.js:1687-1690 | log, pow and the scaling find z and e with x = z / 2^e and z a 53-bit integer (or half of one just above 10^-21), without rounding. |
| `ToFixed.Accumulator.Multiply` | doc/swagger/lib/es5-shim.js:1602-1610 | In place: the limbs become those of n * V + c with the carry out of the top dropped; limbs stay in [0, 10^7) and every intermediate is an exact double. |
| `ToFixed.MulLimbsValue` | doc/swagger/lib/es5-shim.js:1602-1610 | Value of the new limbs plus carry * 10^42 is n * V + c. |
| `ToFixed.MulLimbsFits` | doc/swagger/lib/es5-shim.js:1602-1610 | Below 10^42 no carry is lost: the new value is exactly n * V + c. |
| `ToFixed.Accumulator.Divide` | doc/swagger/lib/es5-shim.js:1611-1619 | In place: the value becomes V div n, limbs stay in range, intermediates are exact doubles. |
| `ToFixed.RoundedQuotient` | doc/swagger/lib/es5-shim.js:1608-1616 | Any correctly rounded quotient has the same floor as the exact one, so Math.floor(a / n) is exact on all values the accumulator holds. |
| `ToFixed.Accumulator.NumToString` | doc/swagger/lib/es5-shim.js:1620-1634 | The limbs print as the canonical decimal numeral of the value. |
| `ToFixed.FastPow` | doc/swagger/lib/es5-shim.js:1635-1637 | Repeated squaring computes acc * x^n. |
| `ToFixed.Log` | doc/swagger/lib/es5-shim.js:1638-1650 | The result n brackets x: 2^n <= x < 2^(n+1), and is 0 below 2. |
| `ToFixed.Accumulator.ScaleTen` | doc/swagger/lib/es5-shim.js:1696-1703 | Multiplying seven digits at a time scales the value by 10^f. |
| `ToFixed.Accumulator.ShiftRight` | doc/swagger/lib/es5-shim.js:1704-1711 | Dividing 23 bits at a time divides by 2^k rounding down once. |
| `ToFixed.Accumulator.RoundedDigits` | doc/swagger/lib/es5-shim.js:1694-1714 | The e > 0 path as a whole: the digits of z * 10^f / 2^e rounded half up. |
| `ToFixed.Accumulator.ExactDigits` | doc/swagger/lib/es5-shim.js:1715-1719 | The e <= 0 path: the digits of an integer followed by f zeros. |
| `HandlebarsCorrectness.CompiledTemplateIsCorrect` | doc/swagger/lib/handlebars-2.0.0.js:27-28 | Compiler correctness of one program: for every program that both stages accept, every runtime, frame and world, calling the emitted function body returns the value and the world that the program denotes. |
| `HandlebarsCorrectness.CompileTemplate` | doc/swagger/lib/handlebars-2.0.0.js:27-28 | Both compiler objects and mergeSource in sequence, for the program without those nested in it: it succeeds exactly when both stages accept it and yields the body the theorem is about. |
| `HandlebarsNames.MakePath` | doc/swagger/lib/handlebars-2.0.0.js:27 | IdNode: the path of written segments, invalid exactly when one that leads to a context follows a part; it is simple exactly when it is one segment that is a part. |
| `HandlebarsNames.ContextMeans` | doc/swagger/lib/handlebars-2.0.0.js:28 | A path without parts, or with an empty first one, is the context it leads to. |
| `HandlebarsNames.PathMeans` | doc/swagger/lib/handlebars-2.0.0.js:28 | Any other path is the property of all its parts in turn, up to the first value that is missing. |
| `HandlebarsNames.DataMeans` | doc/swagger/lib/handlebars-2.0.0.js:28 | A data reference is looked up in the data of as many frames further out. |
| `HandlebarsNames.PathOpcodes` | doc/swagger/lib/handlebars-2.0.0.js:28 | All parts are looked up exactly when the first one is not empty. |
| `HandlebarsNames.KindOf` | doc/swagger/lib/handlebars-2.0.0.js:28 | Which of the forms of a call an expression is: helper, ambiguous or simple, from its parts, arguments and the known helpers. |
| `HandlebarsNames.CallOpcode` | doc/swagger/lib/handlebars-2.0.0.js:28 | The last opcode of an expression, for each form. |
| `HandlebarsNames.ValueMeans` | doc/swagger/lib/handlebars-2.0.0.js:28 | A path that is no bare name and has no arguments is a value, which lambda may call. |
| `HandlebarsNames.DataValueMeans` | doc/swagger/lib/handlebars-2.0.0.js:28 | So is a data reference. |
| `HandlebarsNames.BareMeans` | doc/swagger/lib/handlebars-2.0.0.js:28 | A bare name: the helper of that name, else the property, else helperMissing, called if it is a function. |
| `HandlebarsNames.KnownMeans` | doc/swagger/lib/handlebars-2.0.0.js:28 | A known helper is called from the helpers. |
| `HandlebarsNames.CallMeans` | doc/swagger/lib/handlebars-2.0.0.js:28 | Any other call with arguments: helper, value or helperMissing, with the context, the parameters in order and the options. |
| `HandlebarsNames.BlockCallMeans` | doc/swagger/lib/handlebars-2.0.0.js:28 | A block with arguments hands its helper both functions: fn the program, inverse the inverse. |
| `HandlebarsNames.BlockValueMeans` | doc/swagger/lib/handlebars-2.0.0.js:28 | A block over a value hands it to blockHelperMissing. |
| `HandlebarsNames.BlockBareMeans` | doc/swagger/lib/handlebars-2.0.0.js:28 | A block over a bare name calls its helper; without one, the property goes to blockHelperMissing. |
| `HandlebarsNames.CompiledPath` | doc/swagger/lib/handlebars-2.0.0.js:27-28 | The compiled function of a template of one path of several parts, such as {{person.name}}, returns the text of the property of all of them in turn. |
| `HandlebarsTranslation.GenerateSucceedsIff` | doc/swagger/lib/handlebars-2.0.0.js:28 | For every program that compiles, 'Invalid stack pop', 'replaceStack on non-inline' and 'content left on stack' are unreachable and the source array is the direct translation of its statements, except that a block over a data reference raises a TypeError. |
| `HandlebarsTranslation.DataBlockRaises` | doc/swagger/lib/handlebars-2.0.0.js:27-28 | The opcodes of such a block raise from every state. The input is a program tree given to compile: from template text prepareBlock and RawBlockNode (line 27) raise first. |
| `HandlebarsPlainStack.StepRefinesPlainStack` | doc/swagger/lib/handlebars-2.0.0.js:28 | The two-level stack refines one plain stack: from every state in which stackSlot counts the non-literal entries of compileStack, each opcode has exactly the outcome that it has on a single sequence of operands with a mark (the error, or the operands, hashes and emitted source, flushes included), and the counter is right again. |
| `HandlebarsPlainStack.RunRefinesPlainStack` | doc/swagger/lib/handlebars-2.0.0.js:28 | The same for every run of opcodes. |
| `HandlebarsPlainStack.GenerateRefinesPlainStack` | doc/swagger/lib/handlebars-2.0.0.js:28 | The whole second stage is that of the plain machine; content is left on the two stacks exactly when the plain stack is not empty. |
| `HandlebarsPlainStack.PlainStepSucceedsIff` | doc/swagger/lib/handlebars-2.0.0.js:28 | An opcode raises exactly when operands, an open hash, a child, a name or a stored value that it needs are missing. |
| `HandlebarsPlainStack.ReachableStates` | doc/swagger/lib/handlebars-2.0.0.js:28 | In every reachable state stackSlot counts the stored operands, the k-th of which is the variable stackk, and the condition for raising is that one. |
| `HandlebarsTranslation.RunParam` | doc/swagger/lib/handlebars-2.0.0.js:28 | From any state, whatever is on the two stacks, running the opcodes of a parameter, nested sub-expressions included, pushes exactly its translation and changes nothing else; the variable its lookups overwrite is that of the last stored operand, or stack1. |
| `HandlebarsTranslation.RunParams` | doc/swagger/lib/handlebars-2.0.0.js:28 | Parameters are pushed in source order on an otherwise unchanged stack. |
| `HandlebarsTranslation.RunHash` | doc/swagger/lib/handlebars-2.0.0.js:28 | A hash pushes one object in which every key is paired with its own value, and restores the enclosing hash. |
| `HandlebarsTranslation.FirstPairCounts` | doc/swagger/lib/handlebars-2.0.0.js:28 | As pairs are emitted in reverse, the first of several pairs with the same key is the one that counts. |
| `HandlebarsTranslation.RepeatedKey` | doc/swagger/lib/handlebars-2.0.0.js:28 | With k="a" k="b" the key k has the value "a". |
| `HandlebarsTranslation.RunHelper` | doc/swagger/lib/handlebars-2.0.0.js:28 | A helper call pushes one call with its arguments in order, then the options with fn and inverse not swapped. |
| `HandlebarsTranslation.RunSexpr` | doc/swagger/lib/handlebars-2.0.0.js:28 | The same for each of the simple, helper and ambiguous forms. |
| `HandlebarsTranslation.RunStatement` | doc/swagger/lib/handlebars-2.0.0.js:27-28 | The opcodes of one statement add exactly its items to the source and leave both stacks empty. |
| `HandlebarsCorrectness.EvalHelper` | doc/swagger/lib/handlebars-2.0.0.js:28 | The translated helper call evaluates to its denotation for all registers: lookup order, arguments left to right, hash right to left, options last. |
| `HandlebarsCorrectness.EvalSexpr` | doc/swagger/lib/handlebars-2.0.0.js:28 | Likewise for every kind of expression. |
| `HandlebarsCorrectness.EvalAmbiguousBlock` | doc/swagger/lib/handlebars-2.0.0.js:28 | The ambiguous block form calls the helper or uses the property, and leaves the options it used in their register. |
| `HandlebarsCorrectness.ExecStatement` | doc/swagger/lib/handlebars-2.0.0.js:27-28 | In a program of several statements each one appends exactly its text to the buffer. |
| `HandlebarsMerge.MergedMeaning` | doc/swagger/lib/handlebars-2.0.0.js:28 | mergeSource preserves meaning: the merged body computes what the source array does item by item, for every array. |
| `HandlebarsMerge.MergedSimpleMeaning` | doc/swagger/lib/handlebars-2.0.0.js:28 | The same for programs of one statement, where the body returns directly. |
| `HandlebarsMerge.MergeSource` | doc/swagger/lib/handlebars-2.0.0.js:28 | The loop of mergeSource produces the merged body. |
| `HandlebarsCompiler.Compiler.CompileStatements` | doc/swagger/lib/handlebars-2.0.0.js:27-28 | The Compiler object pushes exactly the opcodes and children of the statements, or stops on a data reference in parentheses. |
| `HandlebarsCompiler.Compiler.HelperSexpr` | doc/swagger/lib/handlebars-2.0.0.js:28 | helperSexpr appends its opcodes and nothing else. |
| `HandlebarsCompiler.Compiler.HashArguments` | doc/swagger/lib/handlebars-2.0.0.js:27-28 | hash pushes all values first and then assigns the keys from the last to the first. |
| `HandlebarsCompiler.Compiler.Block` | doc/swagger/lib/handlebars-2.0.0.js:28 | block compiles both bodies to children, dispatches on the kind of call, refers to the right children, and passes an undefined name for a data reference. |
| `HandlebarsJavaScriptCompiler.JavaScriptCompiler.Dispatch` | doc/swagger/lib/handlebars-2.0.0.js:28 | One opcode on the mutable JavaScriptCompiler has the effect of the state machine's step, and fails exactly when that does. |
| `HandlebarsJavaScriptCompiler.JavaScriptCompiler.PopStack` | doc/swagger/lib/handlebars-2.0.0.js:28 | popStack takes from inlineStack, else from compileStack releasing a slot, or fails. |
| `HandlebarsJavaScriptCompiler.JavaScriptCompiler.Compile` | doc/swagger/lib/handlebars-2.0.0.js:28 | compile runs all opcodes and checks that nothing is left. |
| `HandlebarsTemplates.NestedProgramsAreCorrect` | doc/swagger/lib/handlebars-2.0.0.js:27-28 | The whole template: for each call of a program nested at any depth that runs the code of its entry, the value and the world are those the program denotes with the context, data and depths of the call, and depths are passed on to its own programs, if sharing does no harm and every function passes the depths used (both exact conditions on the template, below). |
| `HandlebarsRuntime.EndedCallRuns` | doc/swagger/lib/handlebars-2.0.0.js:27-28 | A runtime with JavaScript objects, closures and the built-in helpers, in which calls need not end: each call that ends runs the code of its entry, as the theorem asks. |
| `HandlebarsRuntime.EndedCallsAreCorrect` | doc/swagger/lib/handlebars-2.0.0.js:27-28 | So in that runtime every call of a nested program that ends gives what the program denotes, whatever it calls in turn. |
| `HandlebarsRuntime.NestingIrrelevant` | doc/swagger/lib/handlebars-2.0.0.js:27-28 | A call that ends gives the same however deeply calls may be nested. |
| `HandlebarsRuntime.FooOfItselfNeverEnds` | doc/swagger/lib/handlebars-2.0.0.js:27-28 | The body x{{{foo this}}} called for an object whose foo is that body itself never ends. |
| `HandlebarsRuntime.FooOfLogEnds` | doc/swagger/lib/handlebars-2.0.0.js:27-28 | Called for an object whose foo is the log helper it ends, with x. |
| `HandlebarsRuntime.FooTemplateHasEntry` | doc/swagger/lib/handlebars-2.0.0.js:27-28 | The table compiled from {{#a}}x{{{foo this}}}{{/a}} has an entry for that body. |
| `HandlebarsTemplates.OutputsKeptIff` | doc/swagger/lib/handlebars-2.0.0.js:27-28 | Sharing entries changes what some program computes exactly when, of two nested programs with equal opcodes and children that end in an unescaped value, a block or a partial, one consists of that alone and the other does not. |
| `HandlebarsTemplates.HarmlessKeepsOutputs` | doc/swagger/lib/handlebars-2.0.0.js:27-28 | Otherwise programs with one entry compute the same in every runtime, frame and world, such as {{x}} and {{! c}}{{x}}. |
| `HandlebarsTemplates.MainIsCorrect` | doc/swagger/lib/handlebars-2.0.0.js:27-28 | The main function of a compiled template computes what the template denotes, in every case. |
| `HandlebarsTemplates.CompileProgramSucceedsIff` | doc/swagger/lib/handlebars-2.0.0.js:27-28 | All programs of a template are generated exactly when none of its blocks, at any depth, is over a data reference. |
| `HandlebarsPrograms.CompiledTable` | doc/swagger/lib/handlebars-2.0.0.js:28 | compileChildren over the shared table: entries are pairwise different programs of the template, each entry refers to entries equal to its own children, and every nested program, compiled or matched, is represented. |
| `HandlebarsPrograms.SharingExactIff` | doc/swagger/lib/handlebars-2.0.0.js:28 | Which entry stands in the table: matchExistingProgram replaces no program by a different one exactly when no two nested programs with equal opcodes and children differ in being a single statement. |
| `HandlebarsTemplates.CommentChangesBody` | doc/swagger/lib/handlebars-2.0.0.js:27-28 | Two blocks with the bodies {{{x}}} and {{! c}}{{{x}}}: a call of the second runs the body of the first. |
| `HandlebarsTemplates.CommentMeaning` | doc/swagger/lib/handlebars-2.0.0.js:27-28 | The one body returns the value, the other the text of the value. |
| `HandlebarsDepths.PassesDepthsIff` | doc/swagger/lib/handlebars-2.0.0.js:28 | A function passes depths on exactly when depths were collected for its program, or for one nested in it that nothing in the table equals when it is compiled. |
| `HandlebarsDepths.AllPassIff` | doc/swagger/lib/handlebars-2.0.0.js:28 | Every function of a template passes the depths that are used in it exactly when, in the order of the template, each program not equal to an earlier one that uses depths collects some itself or contains one that does and equals none met before; the main function always does. |
| `HandlebarsDepths.UnsharedPassesDepths` | doc/swagger/lib/handlebars-2.0.0.js:28 | As long as nothing nested in a program is in the table when it is compiled, its function passes depths on exactly when it or a program nested in it uses them. |
| `HandlebarsDepths.SharingLosesDepths` | doc/swagger/lib/handlebars-2.0.0.js:28 | A matched program does not make the function around it pass depths on, although its code reads them. |
| `HandlebarsTemplates.DepthsLost` | doc/swagger/lib/handlebars-2.0.0.js:27-28 | A template for which this happens, and which so fails the condition. |
| `HandlebarsTemplates.ProgramTable.CompileWhole` | doc/swagger/lib/handlebars-2.0.0.js:28 | compile with its context object: children first, then the opcodes; the shared table changes as specified. |
| `HandlebarsTemplates.ProgramTable.CompileAll` | doc/swagger/lib/handlebars-2.0.0.js:28 | The loop of compileChildren. |
| `HandlebarsTemplates.ProgramTable.MatchExistingProgram` | doc/swagger/lib/handlebars-2.0.0.js:28 | The loop over the table finds the first equal program. |
| `HandlebarsTemplates.CompileAllPrograms` | doc/swagger/lib/handlebars-2.0.0.js:27-28 | Both stages on their objects for a template with all its nested programs: it succeeds exactly as stated above and ends with the table that the theorems are about. |
| `HighlightMerge.MergeStreams` | doc/swagger/lib/highlight.9.1.0.pack.js:2 | mergeStreams writes the HTML of the merge of any two event streams. |
| `HighlightMerge.MergeIsCorrect` | doc/swagger/lib/highlight.9.1.0.pack.js:2 | For ordered, well-nested streams over a text: the output, as tags and characters, is properly nested and closed, reads as the text, and encloses each character by the original elements open there and, inside them, the highlighting spans open there. |
| `HighlightMerge.MergeFromCorrect` | doc/swagger/lib/highlight.9.1.0.pack.js:2 | The loop invariant in every reachable state: open tags are the original ones followed by nodeStack. |
| `HighlightMerge.OriginalSurvives` | doc/swagger/lib/highlight.9.1.0.pack.js:2 | Without the highlighting tags the output is the original markup: every original event once, in order and in place. |
| `HighlightSpans.NoneEmptyIff` | doc/swagger/lib/highlight.9.1.0.pack.js:2 | The order of events at one offset, and taking all original ones there at once: every span that is opened in the output holds a character before one is closed, exactly when the highlighting has no empty span. |
| `HighlightMerge.HtmlChars` | doc/swagger/lib/highlight.9.1.0.pack.js:2 | Text pieces are written as the escaped text. |
| `HighlightStream.NodeStream.Walk` | doc/swagger/lib/highlight.9.1.0.pack.js:2 | The walk over a DOM subtree appends its events and returns the offset past its text. |
| `HighlightStream.ListEvents` | doc/swagger/lib/highlight.9.1.0.pack.js:2 | nodeStream lists the events of an element's children. |
| `HighlightStream.EventsInOrder` | doc/swagger/lib/highlight.9.1.0.pack.js:2 | Its offsets never decrease and stay within the text. |
| `HighlightStream.EventsNestedIffFaithful` | doc/swagger/lib/highlight.9.1.0.pack.js:2 | Its events are well nested exactly when, for every element, the test for br, hr, img or input anywhere in the name agrees with what is really a void element. |
| `HighlightMerge.UnclosedIff` | doc/swagger/lib/highlight.9.1.0.pack.js:2 | The name test is true of the names that have br, hr, img or input anywhere in them. |
| `HighlightStream.HighlightedCover` | doc/swagger/lib/highlight.9.1.0.pack.js:2 | nodeStream and mergeStreams together: every character ends up inside its own ancestors of both trees. |
| `HighlightStream.HighlightedWellFormedIff` | doc/swagger/lib/highlight.9.1.0.pack.js:2 | The merged output of two DOM trees is well formed exactly when the name test is right for every original element. |
| `HighlightStream.AbbreviationStaysOpen` | doc/swagger/lib/highlight.9.1.0.pack.js:2 | It is wrong for abbr, whose name contains br: such an element is never closed. |
| `HighlightHtml.HtmlReadsBackIff` | doc/swagger/lib/highlight.9.1.0.pack.js:2 | The text written for any tags and characters, the merged output included, reads back as them exactly when no attribute value contains a quote. |
| `HighlightHtml.QuoteBreaksTag` | doc/swagger/lib/highlight.9.1.0.pack.js:2 | A tag that does not read back. |
| `Splice.ArrayLike.Splice` | doc/swagger/lib/es5-shim.js:799-859 | splice in place, on any array or array-like object, sparse or with indices past its length: the state of every key, the new length and the returned array; an array whose new length would reach 2^32 raises, with all elements moved and its length up to the last index stored. |
| `Splice.ArrayLike.ShiftDown` | doc/swagger/lib/es5-shim.js:820-838 | The overlapping move to the front, and the deletion of the vacated end. |
| `Splice.ArrayLike.ShiftUp` | doc/swagger/lib/es5-shim.js:839-851 | The overlapping move to the back, from the back. |
| `Splice.ArrayLike.Insert` | doc/swagger/lib/es5-shim.js:852-856 | The inserted items, all other keys unchanged. |
| `Splice.ArrayLike.Deleted` | doc/swagger/lib/es5-shim.js:807-815 | The removed elements with holes kept; its length is one past the last one that is no hole. |
| `Splice.ActualStart` | doc/swagger/lib/es5-shim.js:803-804 | Clamping of start for every number: itself within 0..len, counted from the end when negative, else the nearer end; NaN is 0. |
| `Splice.ActualDeleteCount` | doc/swagger/lib/es5-shim.js:805 | Clamping of deleteCount for every number to what is there. |
| `Splice.SplicedElements` | doc/swagger/lib/es5-shim.js:799-859 | With no own index at or past the length: the result is old[..s] + items + old[s+d..], holes included (section 15.4.4.12 of ECMA-262 5.1). |
| `Splice.RemovedElements` | doc/swagger/lib/es5-shim.js:806-815 | The returned array holds old[s..s+d]; its length is d exactly when d is 0 or the last removed element is no hole. |
| `Splice.LastHoleShortens` | doc/swagger/lib/es5-shim.js:806-815 | Removing an element and a hole behind it returns an array of length 1. |
| `Splice.SpliceUndone` | doc/swagger/lib/es5-shim.js:799-859 | Splicing the removed elements back restores the original, if there were no holes among them. |
| `Calendar.DayFromMonthCounts` | doc/swagger/lib/es5-shim.js:1475-1486 | The closed form equals the sum of Gregorian year and month lengths from 1970 on, for every integer year and month. |
| `Calendar.MonthLengthByDifference` | doc/swagger/lib/es5-shim.js:1546-1547 | The parser's test of the day is the length of the month. |
| `Calendar.TimeOrder` | doc/swagger/lib/es5-shim.js:1549-1557 | Time values are ordered as (year, month, day, h, m, s, ms) lexicographically, and equal only for equal fields. |
| `Calendar.EndOfDay` | doc/swagger/lib/es5-shim.js:1540-1542 | 24:00:00 is the next day's midnight, at the end of a month and year too. |
| `Calendar.FieldsOf` | doc/swagger/lib/es5-shim.js:1318-1326 | Every time value has valid fields with that value (the getters of section 15.9.1 of ECMA-262 5.1). |
| `Calendar.FieldsUnique` | doc/swagger/lib/es5-shim.js:1318-1326 | They are the only ones. |
| `Calendar.YearBound` | doc/swagger/lib/es5-shim.js:1327-1330 | In the range of dates years have at most six digits. |
| `IsoDate.MatchIffText` | doc/swagger/lib/es5-shim.js:1453-1473 | The date expression matches exactly the strings of the grammar, each in one way. |
| `IsoDateTexts.ReadIffFormat` | doc/swagger/lib/es5-shim.js:1453-1473 | The texts that are read are exactly those of the listed forms: decimals only behind seconds, a zone only behind a clock; others go to the native parser. |
| `IsoDate.ParseMeaning` | doc/swagger/lib/es5-shim.js:1540-1557 | Fields are accepted exactly when they are a day of the calendar, a time of it or its end, and a valid offset; the value is the local time less the offset. |
| `IsoDateTexts.ParseUtc` | doc/swagger/lib/es5-shim.js:1525-1563 | A text with all fields and Z, with a year of four digits or a sign and six: the milliseconds elapsed since 1970 by the calendar, or NaN if there is no such date and time, or beyond 100,000,000 days. |
| `IsoDateTexts.ParseAhead` | doc/swagger/lib/es5-shim.js:1536-1563 | With +hh:mm the value is that much less, NaN from 24 hours or 60 minutes on. |
| `IsoDateTexts.ParseBehind` | doc/swagger/lib/es5-shim.js:1536-1563 | With -hh:mm it is that much more. |
| `IsoDateTexts.ParseLocal` | doc/swagger/lib/es5-shim.js:1532-1563 | Without a zone the time is a local one: it is converted first and then tested for its range. |
| `IsoDateTexts.ParseYear` | doc/swagger/lib/es5-shim.js:1526 | A missing month is January. |
| `IsoDateTexts.ParseMonth` | doc/swagger/lib/es5-shim.js:1527 | A missing day is the first. |
| `IsoDateTexts.ParseDate` | doc/swagger/lib/es5-shim.js:1527-1535 | A date without a clock is midnight in UTC, not in local time. |
| `IsoDateTexts.ParseMinutes` | doc/swagger/lib/es5-shim.js:1530-1531 | Missing seconds are 0, in every zone. |
| `IsoDate.ParseOrder` | doc/swagger/lib/es5-shim.js:1549-1557 | With equal offsets parsed times are ordered as the fields are. |
| `IsoDate.ThousandthsFloor` | doc/swagger/lib/es5-shim.js:1531 | The milliseconds are the floor of the fraction times 1000 over exact numbers. |
| `IsoDate.ToISOString` | doc/swagger/lib/es5-shim.js:1312-1342 | A RangeError exactly for NaN, else the text of the fields of the time value. |
| `IsoDateTexts.IsoStringForm` | doc/swagger/lib/es5-shim.js:1312-1342 | Every character of the printed text: a year of four digits from 0 to 9999, else a sign and six, then -dd-ddTdd:dd:dd.dddZ with the fields of the time value. |
| `IsoDate.PaddedFields` | doc/swagger/lib/es5-shim.js:1332-1335 | Each field padded to two digits. |
| `IsoDate.PadReads` | doc/swagger/lib/es5-shim.js:1327-1341 | A padded field has its width and reads as its number. |
| `IsoDate.RoundTrip` | doc/swagger/lib/es5-shim.js:1312-1342 | For every time value within 8.64e15 ms, parsing its ISO string gives it back. |
| `IsoDate.IsoStringInjective` | doc/swagger/lib/es5-shim.js:1312-1342 | Different times have different ISO strings. |
| `MarkedBlocks.ParseFlatten` | doc/swagger/lib/marked.js:918-1070 | For every block tree and every state of the inline lexer's flag: the popping parser consumes exactly the tokens, never reads past the end, outputs the structural rendering, which threads the flag through all texts, with adjacent texts joined in tight and loose items, and fails only where the inline lexer finds no rule. |
| `MarkedBlocks.BodyRenders` | doc/swagger/lib/marked.js:1018-1056 | Each loop of tok over the tokens of blocks and an end token renders the blocks, from the flag before to the flag after, and stops right behind that end token. |
| `MarkedBlocks.TokRenders` | doc/swagger/lib/marked.js:964-1070 | tok renders one block and leaves the rest. |
| `MarkedRendering.TopText` | doc/swagger/lib/marked.js:1066-1068 | A text at the top of a document is a paragraph around what the inline lexer writes. |
| `MarkedRendering.QuotedText` | doc/swagger/lib/marked.js:1018-1068 | So is one in a quote. |
| `MarkedRendering.LooseText` | doc/swagger/lib/marked.js:1048-1068 | And one in a loose item. |
| `MarkedRendering.TightText` | doc/swagger/lib/marked.js:1037-1046 | In a tight item it is what the inline lexer writes, with no paragraph. |
| `MarkedRendering.ParsedItem` | doc/swagger/lib/marked.js:1027-1056 | The parser itself on the five tokens of a list with such an item. |
| `MarkedRendering.TextsTogether` | doc/swagger/lib/marked.js:950-958 | Texts next to each other, anywhere, are one text joined by a newline. |
| `MarkedRendering.QuoteWrites` | doc/swagger/lib/marked.js:1018-1026 | A quote is put around its blocks. |
| `MarkedRendering.ListWrites` | doc/swagger/lib/marked.js:1027-1056 | A list is put around its items, each with the flag that the one before it left, texts being paragraphs exactly in loose ones. |
| `MarkedRendering.SpaceWrites` | doc/swagger/lib/marked.js:966-968 | A space writes nothing. |
| `MarkedRendering.HrWrites` | doc/swagger/lib/marked.js:969-971 | A rule. |
| `MarkedRendering.HeadingWrites` | doc/swagger/lib/marked.js:972-977 | A heading: its rendered title, depth and source. |
| `MarkedRendering.CodeWrites` | doc/swagger/lib/marked.js:978-982 | Code is not lexed. |
| `MarkedRendering.HtmlWrites` | doc/swagger/lib/marked.js:1057-1062 | HTML is lexed unless it is preformatted or the option pedantic is set. |
| `MarkedRendering.ParagraphWrites` | doc/swagger/lib/marked.js:1063-1065 | A paragraph, in tight items too. |
| `MarkedRendering.TableWrites` | doc/swagger/lib/marked.js:983-1017 | A table: header cells, then rows of cells, each with its alignment, lexed in this order. |
| `MarkedRendering.HeaderStuck` | doc/swagger/lib/marked.js:989-997 | It fails when the lexer is stuck in a header. |
| `MarkedRendering.CellStuck` | doc/swagger/lib/marked.js:999-1013 | Or in a cell. |
| `MarkedParser.Parser.ParseAll` | doc/swagger/lib/marked.js:918-928 | parse on the mutable token stack with a new inline lexer, for any tokens: its outcome, including the TypeError when they run out and the error of the inline lexer. |
| `MarkedParser.Parser.Step` | doc/swagger/lib/marked.js:964-1070 | tok on the mutable stack and the shared inline lexer, for any tokens. |
| `MarkedParser.Parser.Leaf` | doc/swagger/lib/marked.js:964-1017 | The cases of tok for tokens rendered on their own: which of their texts go through the inline lexer, in which order. |
| `MarkedParser.Parser.Cells` | doc/swagger/lib/marked.js:986-1015 | The loop over the cells of a table row. |
| `MarkedParser.Parser.ParseText` | doc/swagger/lib/marked.js:950-958 | parseText joins the texts that follow with newlines, pops exactly those and renders the joined text. |
| `MarkedParser.Parser.Next` | doc/swagger/lib/marked.js:934-936 | next pops the last token of the reversed list. |
| `MarkedParser.Parser.ParseDocument` | doc/swagger/lib/marked.js:918-928 | On the tokens of a document the parser renders it, or fails with the inline lexer. |
| `MarkedLexer.Lexer.Tokenize` | doc/swagger/lib/marked.js:149-442 | token, for any rules that match nonempty prefixes: terminates, pushes exactly the bracketed tokens of the document it finds and notes its link definitions in order, or throws, and needs at most as many rounds, nested ones included, as the text has characters. |
| `MarkedRuleOrder.TakesCode` | doc/swagger/lib/marked.js:173-183 | Code comes first: what the rule matched is its block, followed by the blocks of the rest. |
| `MarkedRuleOrder.TakesFences` | doc/swagger/lib/marked.js:186-194 | Fences, when code does not match. |
| `MarkedRuleOrder.TakesHeading` | doc/swagger/lib/marked.js:197-205 | Headings, when no earlier rule matches. |
| `MarkedRuleOrder.TakesNptable` | doc/swagger/lib/marked.js:208-237 | Tables without leading pipes, at the top only. |
| `MarkedRuleOrder.TakesLheading` | doc/swagger/lib/marked.js:240-248 | Underlined headings. |
| `MarkedRuleOrder.TakesHr` | doc/swagger/lib/marked.js:251-257 | Rules. |
| `MarkedRuleOrder.TakesQuote` | doc/swagger/lib/marked.js:260-279 | A quote: its inside is lexed on its own, at the top if the quote is, and without definitions. |
| `MarkedRuleOrder.TakesList` | doc/swagger/lib/marked.js:282-353 | A list: ordered or not, its items up to the first with another kind of bullet, each lexed away from the top and loose or not; the other items are put back, joined by newlines. |
| `MarkedRuleOrder.TakesHtml` | doc/swagger/lib/marked.js:356-366 | HTML, after lists. |
| `MarkedRuleOrder.TakesDef` | doc/swagger/lib/marked.js:369-376 | Definitions, at the top and outside quotes only. |
| `MarkedRuleOrder.TakesTable` | doc/swagger/lib/marked.js:379-410 | Tables, at the top only. |
| `MarkedRuleOrder.TakesParagraph` | doc/swagger/lib/marked.js:413-422 | Paragraphs, at the top only. |
| `MarkedRuleOrder.TakesText` | doc/swagger/lib/marked.js:425-433 | Texts, when nothing else matches. |
| `MarkedRuleOrder.TakesNothing` | doc/swagger/lib/marked.js:435-438 | The lexer is stuck exactly when no rule matches a text that is not empty. |
| `MarkedRuleOrder.SkipsNewlines` | doc/swagger/lib/marked.js:150-170 | Blank lines are emptied once; before each block newlines are skipped, and two or more leave a space. |
| `MarkedLexer.NestedDefinesNothing` | doc/swagger/lib/marked.js:368-376 | Quotes and list items, at any depth, define no links. |
| `MarkedLexer.ResolvedIff` | doc/swagger/lib/marked.js:371-374 | With the table a document leaves, a reference is resolved exactly when the last definition of its key has an address, and then leads to that one. |
| `MarkedLexer.Lexer.TokenizeList` | doc/swagger/lib/marked.js:281-353 | A list with its items; items with another bullet are pushed back in front of the rest, which stays shorter than what was taken. |
| `MarkedLexer.Lexer.NextItem` | doc/swagger/lib/marked.js:298-346 | One item: whether it is the last, whether it is loose, and its tokens. |
| `MarkedLexer.ListShrinks` | doc/swagger/lib/marked.js:315-323 | What is pushed back is shorter than what the list had taken, and the kept items pay for the rounds they cost. |
| `Marked.KeptItems` | doc/swagger/lib/marked.js:315-323 | A list keeps the items up to the first whose bullet starts another list. |
| `Marked.Convert` | doc/swagger/lib/marked.js:149-442 | Lexer and parser together: the output is the rendering of the document found with the link definitions found in it, starting with the flag clear. |
| `MarkedNeighbours.RenderConcat` | doc/swagger/lib/marked.js:918-1070 | A document in two parts: the second is rendered with the flag that the first leaves. |
| `MarkedAnchors.FlagIsLastMark` | doc/swagger/lib/marked.js:599-647 | The flag after a text is set exactly when the last anchor, link or image matched in it is an opening anchor. |
| `MarkedAnchors.CourseIsRight` | doc/swagger/lib/marked.js:560-692 | A text outside and inside a link: up to the first anchor, link or image, and after it, the two outputs are equal for every renderer, unless a bare address comes first; then a renderer that writes another character for links than the address begins with tells them apart. |
| `MarkedNeighbours.FlagIsLastAnchor` | doc/swagger/lib/marked.js:918-1070 | The same for documents: the flag after one is set exactly when the last anchor, link or image in its texts, in the order in which they are lexed, is an opening anchor. |
| `MarkedNeighbours.InsensitiveAlike` | doc/swagger/lib/marked.js:560-610 | Blocks in which no bare address is found before their first anchor, link or image come out alike outside and inside a link. |
| `MarkedNeighbours.SensitiveTold` | doc/swagger/lib/marked.js:560-610 | For all others some renderer tells. |
| `MarkedNeighbours.RenderedAloneIff` | doc/swagger/lib/marked.js:560-610 | Blocks are rendered as they are on their own, by every renderer, exactly when the last anchor, link or image in front of them is not an opening anchor, or no bare address is found in them before their first. |
| `MarkedNeighbours.AloneUnless` | doc/swagger/lib/marked.js:560-610 | The one direction without assumptions on the rules. |
| `MarkedNeighbours.StaysClear` | doc/swagger/lib/marked.js:599-647 | When no opening anchor is matched in a document, the flag is clear after each of its parts, links and images notwithstanding. |
| `MarkedNeighbours.RenderedAlone` | doc/swagger/lib/marked.js:599-647 | Then each part is rendered as it is on its own. |
| `MarkedNeighbours.AnchorChangesNeighbour` | doc/swagger/lib/marked.js:592-610 | Three paragraphs of which the first and the last are equal and are rendered differently. |
| `MarkedNeighbours.AnchorFound` | doc/swagger/lib/marked.js:592-610 | Rules for which they are, and which meet what the exact condition assumes. |
| `MarkedInline.InlineLexer.Render` | doc/swagger/lib/marked.js:560-692 | output, for any rules that match nonempty prefixes: terminates in at most one round a character although unresolved references are put back, and computes the specified text and inLink flag. |
| `MarkedInlineOrder.TakesEscape` | doc/swagger/lib/marked.js:569-573 | Escapes come first. |
| `MarkedInlineOrder.TakesAutolink` | doc/swagger/lib/marked.js:576-589 | Then addresses in angle brackets. |
| `MarkedInlineOrder.TakesUrl` | doc/swagger/lib/marked.js:592-598 | Bare addresses, only outside links. |
| `MarkedInlineOrder.TakesTag` | doc/swagger/lib/marked.js:601-612 | Tags, which set the flag when they open an anchor outside a link, and clear it when they close one. |
| `MarkedInlineOrder.TakesLink` | doc/swagger/lib/marked.js:615-624 | A link or an image; the text of a link is lexed inside a link, and the flag is clear afterwards. |
| `MarkedInlineOrder.TakesReflink` | doc/swagger/lib/marked.js:627-641 | A reference is the link that its definition gives; without one its first character is written and the rest lexed again. |
| `MarkedInlineOrder.TakesNolink` | doc/swagger/lib/marked.js:627-641 | The same for references by their own text. |
| `MarkedInlineOrder.TakesStrong` | doc/swagger/lib/marked.js:644-648 | Strong text, itself lexed. |
| `MarkedInlineOrder.TakesEm` | doc/swagger/lib/marked.js:651-655 | Emphasis, itself lexed. |
| `MarkedInlineOrder.TakesCode` | doc/swagger/lib/marked.js:658-662 | Code spans. |
| `MarkedInlineOrder.TakesBr` | doc/swagger/lib/marked.js:665-669 | Line breaks. |
| `MarkedInlineOrder.TakesDel` | doc/swagger/lib/marked.js:672-676 | Deleted text, itself lexed. |
| `MarkedInlineOrder.TakesText` | doc/swagger/lib/marked.js:679-683 | Text, when nothing else matches. |
| `MarkedInlineOrder.TakesNothing` | doc/swagger/lib/marked.js:685-688 | The lexer is stuck exactly when no rule matches a text that is not empty. |
| `MarkedInline.PutBack` | doc/swagger/lib/marked.js:632-636 | Putting back all but the first character of a match is the same as having taken that character alone. |
| `MarkedInline.InlineLexer.RenderLink` | doc/swagger/lib/marked.js:698-705 | A link's text is lexed with inLink set; afterwards it is clear. |
| `PrettifyCharset.RewrittenRanges` | doc/open-extensions/prettify.js:15-16 | For every list of ranges the merged ranges are sorted, disjoint and not adjacent, and cover exactly the class and the other case of its ASCII letters. |
| `PrettifyCharset.MergeRanges` | doc/open-extensions/prettify.js:16 | The merge loop on mutable ranges, updating the last range through its alias, computes the merge. |
| `PrettifyCharset.ClosedCover` | doc/open-extensions/prettify.js:15 | The ranges pushed for the other case, with the bit operations, cover exactly that case. |
| `PrettifyCharset.MergedSeparated` | doc/open-extensions/prettify.js:16 | Merging sorted ranges separates them. |
| `PrettifyCharset.MergedCover` | doc/open-extensions/prettify.js:16 | Merging keeps the covered set. |
| `PrettifyCharset.SortSorts` | doc/open-extensions/prettify.js:15-16 | The order merged by: sorted by start, longer first, a permutation. |
| `PrettifyClassText.Rewrite` | doc/open-extensions/prettify.js:15-16 | The whole rewriting of a class, from its ranges to its text. |
| `PrettifyClassText.ClassReadsBack` | doc/open-extensions/prettify.js:14-16 | The printed class reads back as its parts exactly when its first character is not a bare caret. |
| `PrettifyClassText.RewriteMeaning` | doc/open-extensions/prettify.js:15-16 | The rewritten class means the original one in either case exactly when it is negated, has class escapes, or its least character is not a caret. |
| `PrettifyClassText.CaretMisread` | doc/open-extensions/prettify.js:14-16 | A class of just an escaped caret becomes one that matches everything. |
| `PrettifyTabs.TabExpander.Expand` | doc/open-extensions/prettify.js:18-19 | One call of the tab expander: the expanded text and the column it leaves. |
| `PrettifyTabs.TabExpander.PushSpaces` | doc/open-extensions/prettify.js:18-19 | Pushing sixteen at a time gives exactly the spaces wanted. |
| `PrettifyTabs.ChunkingIrrelevant` | doc/open-extensions/prettify.js:18-19 | However a text is split into calls, the outputs together are those of one call. |
| `PrettifyTabs.ExpandedColumns` | doc/open-extensions/prettify.js:18-19 | No tab is left, and counting plainly in the output gives the columns that tab stops define. |
| `PrettifyTabs.Advance` | doc/open-extensions/prettify.js:18-19 | A tab advances to the next multiple of the width. |
| `LastIndexOf.Find` | doc/swagger/lib/es5-shim.js:1946-1965 | lastIndexOf of any text, needle and position, missing, NaN and infinite ones included: for a nonempty needle -1 exactly when nothing occurs that does not start after the position, else such an occurrence, and the last of them if the needle has no border. |
| `LastIndexOf.Start` | doc/swagger/lib/es5-shim.js:1952-1954 | The clamped position for every number: itself within 0..len, the nearer end outside, and len when it is missing or NaN. |
| `LastIndexOf.FoundOccurs` | doc/swagger/lib/es5-shim.js:1955-1964 | For every nonempty needle the result is -1 exactly when nothing occurs at or before the position, and otherwise an occurrence. |
| `LastIndexOf.BorderlessFindsLast` | doc/swagger/lib/es5-shim.js:1955-1964 | For a needle without a proper border it is the last occurrence. |
| `LastIndexOf.AlwaysLastIff` | doc/swagger/lib/es5-shim.js:1955-1964 | A needle is found at its last occurrence (section 15.5.4.8 of ECMA-262 5.1) in every text from every position exactly when it is nonempty and has no border. |
| `LastIndexOf.BorderMisses` | doc/swagger/lib/es5-shim.js:1955-1964 | For every needle with a border, a text and position where the first of two occurrences is returned. |
| `LastIndexOf.EmptyFound` | doc/swagger/lib/es5-shim.js:1955-1964 | The empty needle is found at the position, except that -1 is returned for position 0. |
| `CommandHelp.WrapIsGreedy` | src/ejabberd_ctl.erl:354-387 | Wrapping: the words in order, never no line, no line too wide unless it is one word, and a break only where the next word fails the fit test. |
| `CommandHelp.JoinIsLines` | src/ejabberd_ctl.erl:359-387 | The accumulator recursion with its reversals produces those lines, each word followed by a space. |
| `CommandHelp.LinesKeepWords` | src/ejabberd_ctl.erl:369-387 | No word is lost, repeated or reordered. |
| `CommandHelp.LinesFit` | src/ejabberd_ctl.erl:372-387 | The width bound and the greedy breaks, although the counter leaves out the last space on all lines but the first. |
| `CommandHelp.MaxLengthBounds` | src/ejabberd_ctl.erl:297-313 | The command column is as wide as the longest command. |
| `CommandHelp.UsageLayout` | src/ejabberd_ctl.erl:293-409 | For every command in a list, in dual and long mode: all lines of its description start at the same column, within maxC columns, holding its words. |
| `CommandHelp.TokensNoNewlines` | src/ejabberd_ctl.erl:334-336 | The words of a description contain no newline. |
| `CommandHelp.TokensAre` | src/ejabberd_ctl.erl:334-336 | The words are the only ones of which the text consists, apart from the separators. |
| `CommandHelp.ArgsTextSnoc` | src/ejabberd_ctl.erl:391-406 | Each argument is printed with a space behind it. |
| `CommandHelp.ModeLeavesRoom` | src/ejabberd_ctl.erl:389-409 | Descriptions stand beside the commands exactly when at least 36 columns are left for them, else below, behind 8 columns. |
| `AccessRules.MergedDecision` | src/acl.erl:82-101 | Merged rules decide by the earlier global clauses, then the host's, then a trailing global allow-all, else deny. |
| `AccessRules.MergeTwice` | src/acl.erl:82-90 | Merging two host lists in turn gives the same clauses as merging their concatenation exactly when the global list ends in allow-all, the first host list does not, or the second consists of allow-alls. |
| `AccessRules.MergeTwiceDecides` | src/acl.erl:82-101 | For each JID the two decide alike exactly when the global list ends in allow-all, the first host list does not, a clause before that list's allow-all applies, or the second list has no clause that applies or allows. |
| `AccessRules.MergeTwiceDiffers` | src/acl.erl:82-101 | Two host lists for which every JID is denied one way and allowed the other. |
| `AccessRules.DecideFirst` | src/acl.erl:93-101 | The first clause whose acl matches decides. |
| `AccessRules.SpecIsConjunction` | src/acl.erl:118-124 | A spec matches when all its conditions hold. |
| `AccessRules.SpecOrderIrrelevant` | src/acl.erl:118-124 | In whatever order the map is iterated. |
| `AccessRules.AclIsUnion` | src/acl.erl:105-114 | An acl matches when one of its specs does. |
| `AccessRules.AclMatches` | src/acl.erl:105-114 | The acl all matches everybody, none nobody, and any other those whom all conditions of one of its specs match. |
| `Router.RouteIsChain` | src/ejabberd_router.erl:162-189 | For every list of modules and every behaviour of theirs: a run consults a prefix in order, calls each router only after its own filter passed, appends exactly one result, and is out of modules exactly when all passed the packet on. |
| `Router.CrashIff` | src/ejabberd_router.erl:162-189 | It fails with an uncaught error exactly when the module it stops at returns a term without a clause, such as a filter that changes the addresses. |
| `Router.RedirectCrashes` | src/ejabberd_router.erl:162-189 | A filter that changes the recipient ends the run with the error. |
| `Router.StatesChain` | src/ejabberd_router.erl:162-189 | The states a packet goes through are linked by what each module passes on, up to the first that does not. |

## Left out

- es5-shim: feature detection, `bind`, `keys`, native workarounds, local time and regular-expression `split`, which depend on the host engine.
- Splice.ArrayLike.Splice: inherited or accessor properties, and non-configurable elements are not modelled.
- IsoDate.RoundTrip: takes the fraction times 1000 over exact numbers, where the code rounds to doubles; for more than three decimals the two can differ.
- IsoDate.ThousandthsFloor: the product is over exact numbers too, and so are the milliseconds in `IsoDateTexts`.
- IsoDate.ToISOString: the native getters are modelled by what ECMA-262 defines, and the conversion of local times to UTC is a parameter of the parser.
- Handlebars: the LR parser and its lexer, whitespace control, partials and the data that the runtime itself adds, and the modes `stringParams`, `trackIds`, `compat`, `knownHelpersOnly` and `noEscape`.
- HandlebarsRuntime.EndedCallsAreCorrect: the built-in helpers of that runtime follow the library's, but nothing is stated about them; the results hold whatever helpers do.
- Handlebars: property reads that raise, have effects, or see changes that helpers made.
- HighlightMerge.MergeIsCorrect: a closing tag must match the element it closes and not just its name.
- HighlightHtml.HtmlReadsBackIff: the reader knows only tags with quoted attributes and the three character references that are written.
- marked: the regular expressions and the renderer's own strings, which are parameters of the model.
- MarkedLexer.Lexer.Tokenize: the text after the normalisation of line ends and tabs in `lex`.
- MarkedInline.InlineLexer.Render: the random mangling of mail addresses is part of the rules.
- prettify: the rewriting of groups and back references around the classes, and the tokenisation of a class into ranges, whose order within a range the regular expression guarantees.
- CommandHelp.UsageLayout: shell codes, which have no width, and the sorting of the commands.
- ejabberd_ctl, acl, ejabberd_router: logging, instrumentation, configuration lookup and printing.
- AccessRules.AclIsUnion: an empty spec, which the configuration does not allow, raises in the source.
- The other source files of the repository: wrappers over libraries, configuration, tables and user interface.
