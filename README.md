# es6draft core, modelled in Dafny

This project models the core of es6draft, an ECMAScript engine written in Java. It proves properties of that model. The model covers six parts of the engine.

- **Destructuring.** The code emitted for binding patterns and destructuring assignment runs on a small machine: a heap of objects, iterators made of a value list and a cursor, environments as maps, and a trace of observable events. Each method of the generators (`BindingInitializationGenerator`, `DestructuringAssignmentGenerator`) changes the machine in place. Each is proved to mean the function of the same name in `Bindings` or `Destructuring`. Lemmas about those functions state the evaluation order: the reference before `next`, the key before `GetV`, one iterator per array pattern, and defaults only for `undefined`.
- **Expression lowering.** This covers the decisions of `ExpressionGenerator`:
  - the call-site kind and the `with`-scope walk;
  - the argument-list shape and the direct-eval flags and source;
  - static value-type inference, proved sound against the kinds of values an expression can produce;
  - string-concatenation folding;
  - the order of steps in compound assignment and in `++`/`--`.
- **Lexical environments.** Environment nodes are linked to their outer environment. Identifier resolution walks the chain innermost first and is proved against a recursive specification. The factories are modelled too.
- **Language tags.** The BCP 47 parser follows section 2.1 of RFC 5646. It is a class whose productions advance a token in place. Each production is proved against a pure grammar function over a parse state. Canonicalization follows section 4.5 of RFC 5646 and, for the `-u-` extension, section 2.1.1 of RFC 6067.
- **String methods.** The non-regex String.prototype methods are modelled: clamping, searching, splitting on a string separator, `repeat`, and first-occurrence `replace`.
- **AST nodes.** The `UnaryExpression` and `FunctionExpression` nodes are modelled as classes with their setters.

Where the code departs from ECMA-262, the model follows the code.
- Compound assignment (section 12.14.4 of ECMA-262, 2015 edition) reads the target's value, evaluates the right-hand side, and only then converts both operands. For `+=` with a template literal on the right, the code converts the old value to a string first (see Findings).
- Binding initialization names an anonymous function default after the bound identifier. Destructuring assignment as written does not.

Discrepancies that look like mistakes in the code are listed under Findings. For each, the model keeps the code as written beside a corrected version.

## Model

| member | source | states |
|---|---|---|
| UnaryExpressionNode.Name | src/main/java/com/github/anba/es6draft/ast/UnaryExpression.java:31-32 | every operator has a non-empty token, and the token is a doubled character exactly for the four update operators |
| UnaryExpressionNode.IsPostfix | src/main/java/com/github/anba/es6draft/ast/UnaryExpression.java:31-44 | isPostfix holds exactly for POST_INC and POST_DEC |
| UnaryExpressionNode.InfoDeterminesOperator | src/main/java/com/github/anba/es6draft/ast/UnaryExpression.java:31-44 | token and postfix flag together determine the operator, in both directions |
| UnaryExpressionNode.UpdateFormsShareName | src/main/java/com/github/anba/es6draft/ast/UnaryExpression.java:31-32 | two distinct operators share a token exactly when they are the prefix and postfix forms of the same update operator |
| UnaryExpressionNode.UnaryExpression.constructor | src/main/java/com/github/anba/es6draft/ast/UnaryExpression.java:66-75 | a new node keeps its operator and operand, and its completion flag is true |
| UnaryExpressionNode.UnaryExpression.EmptyCompletion | src/main/java/com/github/anba/es6draft/ast/UnaryExpression.java:95-99 | returns the same node, with the completion flag cleared |
| UnaryExpressionNode.EmptyCompletionIdempotent | src/main/java/com/github/anba/es6draft/ast/UnaryExpression.java:95-109 | after one call, and again after a second call, hasCompletion is false |
| FunctionExpressionNode.ResolveName | src/main/java/com/github/anba/es6draft/ast/FunctionExpression.java:72-78 | the explicit name if set, else the identifier's name, else the empty string |
| FunctionExpressionNode.ThisModeOf | src/main/java/com/github/anba/es6draft/ast/FunctionExpression.java:120-123 | Global exactly when the strict mode is NonStrict, Strict otherwise (unset included), never Lexical |
| FunctionExpressionNode.FunctionExpression.WithIdentifier | src/main/java/com/github/anba/es6draft/ast/FunctionExpression.java:28-40 | stores the identifier and body, leaves name and strict mode unset, and the function name is then the identifier's name or "" |
| FunctionExpressionNode.FunctionExpression.WithName | src/main/java/com/github/anba/es6draft/ast/FunctionExpression.java:42-55 | leaves the identifier null and records the name, which getFunctionName then returns |
| FunctionExpressionNode.FunctionExpression.GetMethodName | src/main/java/com/github/anba/es6draft/ast/FunctionExpression.java:67-70 | equals the resolved function name |
| FunctionExpressionNode.FunctionExpression.IsGenerator | src/main/java/com/github/anba/es6draft/ast/FunctionExpression.java:125-128 | always false |
| FunctionExpressionNode.FunctionExpression.IsAsync | src/main/java/com/github/anba/es6draft/ast/FunctionExpression.java:130-133 | always false |
| FunctionExpressionNode.FunctionExpression.SetFunctionName | src/main/java/com/github/anba/es6draft/ast/FunctionExpression.java:80-83 | afterwards getFunctionName returns the new name; body, strict mode and synthetic flag unchanged |
| FunctionExpressionNode.FunctionExpression.SetStatements | src/main/java/com/github/anba/es6draft/ast/FunctionExpression.java:95-98 | replaces the body only; the resolved name is unchanged |
| FunctionExpressionNode.FunctionExpression.SetStrictMode | src/main/java/com/github/anba/es6draft/ast/FunctionExpression.java:105-108 | records the mode, and getThisMode becomes Global for NonStrict, Strict otherwise |
| FunctionExpressionNode.FunctionExpression.SetSyntheticNodes | src/main/java/com/github/anba/es6draft/ast/FunctionExpression.java:144-147 | replaces the synthetic-nodes flag only |
| CallSites.EnclosedByWithCharacterized | src/main/java/com/github/anba/es6draft/compiler/ExpressionGenerator.java:306-316 | the walk answers true exactly when a with scope comes before every scope declaring the name, or when no scope is relevant and the EnclosedByWithStatement option is set |
| CallSites.IsEnclosedByWithStatement | src/main/java/com/github/anba/es6draft/compiler/ExpressionGenerator.java:306-316 | the cursor loop with early returns computes the specified walk |
| CallSites.IsEnclosedByAnyWithStatement | src/main/java/com/github/anba/es6draft/compiler/ExpressionGenerator.java:318-325 | true exactly when some scope on the chain is a with scope, or else the option is set |
| CallSites.CallTypeOf | src/main/java/com/github/anba/es6draft/compiler/ExpressionGenerator.java:380-401 | Eval/EvalWith exactly for a plain call of the identifier eval; a With variant exactly when the walk finds a capturing with scope; Property exactly for the four accessor kinds; Value otherwise |
| ValueTypes.TypeOfSound | src/main/java/com/github/anba/es6draft/compiler/ExpressionGenerator.java:2045-2270 | every kind of value an expression can produce is admitted by its inferred static type (bitwise ops int, >>> uint, arithmetic Number, comparisons Boolean, + String/Number/Any, && and \|\| Boolean only when both sides are, a conditional's shared or Number type) |
| ValueTypes.PrimitiveTypesExcludeObjects | src/main/java/com/github/anba/es6draft/compiler/ExpressionGenerator.java:2143 | a primitive static type never admits an object, and a primitive type other than String never admits a string |
| ValueTypes.AddOfNonStringPrimitives | src/main/java/com/github/anba/es6draft/compiler/ExpressionGenerator.java:2143-2144 | + on operands that cannot be strings or objects yields only numbers |
| ValueTypes.AddWithStringSide | src/main/java/com/github/anba/es6draft/compiler/ExpressionGenerator.java:2141-2142 | + with an operand that can only be a string yields only strings |
| ValueTypes.AddKindsOf | src/main/java/com/github/anba/es6draft/compiler/ExpressionGenerator.java:2138-2148 | the kinds l + r can produce are the kinds of + applied to the kinds of l and of r |
| ValueTypes.AddTypeOf | src/main/java/com/github/anba/es6draft/compiler/ExpressionGenerator.java:2138-2148 | l + r is typed String when either side is String, and Number when the left is numeric and the right primitive but not String |
| ValueTypes.AddStringSound | src/main/java/com/github/anba/es6draft/compiler/ExpressionGenerator.java:2141-2142 | the String typing of + is sound |
| ValueTypes.AddNumberSound | src/main/java/com/github/anba/es6draft/compiler/ExpressionGenerator.java:2143-2144 | the Number typing of + is sound |
| ValueTypes.AddSound | src/main/java/com/github/anba/es6draft/compiler/ExpressionGenerator.java:2138-2148 | + is sound whenever its operands are |
| ValueTypes.BinarySound | src/main/java/com/github/anba/es6draft/compiler/ExpressionGenerator.java:2111-2157 | every binary operator's typing is sound when its operands' are |
| ValueTypes.ConditionalSound | src/main/java/com/github/anba/es6draft/compiler/ExpressionGenerator.java:2175-2184 | the conditional's typing is sound when both branches' are |
| ValueTypes.AssignmentSound | src/main/java/com/github/anba/es6draft/compiler/ExpressionGenerator.java:2069-2098 | an assignment's typing is sound when its right-hand side's is |
| ValueTypes.LeafSound | src/main/java/com/github/anba/es6draft/compiler/ExpressionGenerator.java:2049-2270 | the fixed typings of literals, function, class and object expressions are sound |
| ValueTypes.NumericLiteralType | src/main/java/com/github/anba/es6draft/compiler/ExpressionGenerator.java:2217-2218 | a numeric literal is typed Number_int exactly when its value is a 32-bit int, and the typing admits its value |
| DirectEval.ArgumentListEvaluation | src/main/java/com/github/anba/es6draft/compiler/ExpressionGenerator.java:796-821 | the shared empty array exactly for no arguments, the spread's own array exactly for a sole spread, otherwise a fixed array of one slot per argument flattened exactly when some argument is a spread; the values are the flattened argument values, evaluated in source order |
| DirectEval.HasArguments | src/main/java/com/github/anba/es6draft/compiler/ExpressionGenerator.java:768-775 | true exactly when some argument is not a spread element |
| DirectEval.HasConstantArguments | src/main/java/com/github/anba/es6draft/compiler/ExpressionGenerator.java:777-784 | true exactly when every argument is a literal (so also for no arguments) |
| DirectEval.EvalFlagsOf | src/main/java/com/github/anba/es6draft/compiler/ExpressionGenerator.java:678-698 | Direct always; Strict, GlobalCode, GlobalScope, GlobalThis and EnclosedByWithStatement each exactly when their condition holds; EnclosedByLexicalDeclaration only in non-strict code |
| DirectEval.ComputeEvalFlags | src/main/java/com/github/anba/es6draft/compiler/ExpressionGenerator.java:680-698 | the bit-by-bit flag computation yields exactly that flag set |
| DirectEval.DirectCallEval | src/main/java/com/github/anba/es6draft/compiler/ExpressionGenerator.java:563-766 | without the realm hook the outcome is undefined for an empty flattened argument list and otherwise evaluates its first value; with it the whole list is translated; an empty argument list evaluates nothing, and arguments are evaluated in source order |
| DirectEval.FlattenOfLeadingPlain | src/main/java/com/github/anba/es6draft/compiler/ExpressionGenerator.java:737-743 | a leading plain argument is the first flattened value, the value the eval source is taken from |
| DirectEval.FlattenNonEmpty | src/main/java/com/github/anba/es6draft/compiler/ExpressionGenerator.java:732-736 | an argument list with some non-spread element flattens to a non-empty list |
| DirectEval.EvalWithEmptyLeadingSpread | src/main/java/com/github/anba/es6draft/compiler/ExpressionGenerator.java:745-763 | eval(...[], "x = 0;") evaluates the source "x = 0;" |
| StringConcat.CheckStringConcat | src/main/java/com/github/anba/es6draft/compiler/ExpressionGenerator.java:1693-1711 | the cursor walk down the left spine accepts exactly the + trees with a string or template operand at some node of the spine |
| StringConcat.StringConcatTypedString | src/main/java/com/github/anba/es6draft/compiler/ExpressionGenerator.java:2138-2148 | every tree isStringConcat accepts is statically typed String |
| StringConcat.CheckConstantConcat | src/main/java/com/github/anba/es6draft/compiler/ExpressionGenerator.java:1737-1758 | the cursor loop accepts exactly the + trees whose leaves are all string literals |
| StringConcat.AppendLeaves | src/main/java/com/github/anba/es6draft/compiler/ExpressionGenerator.java:1760-1768 | appends to the builder the left-to-right concatenation of the tree's literal leaves |
| StringConcat.FoldTwoLiterals | src/main/java/com/github/anba/es6draft/compiler/ExpressionGenerator.java:1715-1719 | 'a' + 'b' folds to "ab" |
| StringConcat.PiecesPreserveValue | src/main/java/com/github/anba/es6draft/compiler/ExpressionGenerator.java:1802-1818 | dropping empty string literals and splicing nested concatenations leaves the string the tree evaluates to unchanged |
| StringConcat.CountStringConcats | src/main/java/com/github/anba/es6draft/compiler/ExpressionGenerator.java:1820-1831 | the dynamic-concat arity is the number of operands collected, with empty string literals counting 0 |
| StringConcat.CountOperand | src/main/java/com/github/anba/es6draft/compiler/ExpressionGenerator.java:1833-1842 | an operand counts as its nested operands, 0 for "", 1 otherwise |
| StringConcat.StringConcatWith | src/main/java/com/github/anba/es6draft/compiler/ExpressionGenerator.java:1770-1800 | the operands are pushed in source order: those of the node that stops the walk, then the collected right operands from the last collected back |
| StringConcat.StringConcatOperand | src/main/java/com/github/anba/es6draft/compiler/ExpressionGenerator.java:1802-1818 | "" pushes nothing, a nested concatenation splices its operands in, any other operand is pushed once |
| StringConcat.PlanStringConcat | src/main/java/com/github/anba/es6draft/compiler/ExpressionGenerator.java:1713-1735 | a constant fold exactly for all-literal trees, with the concatenated value; no handling exactly beyond MAX_DYN_ARGUMENTS operands; otherwise "", the single operand, or a dynamic call whose arity equals its operand count |
| AssignmentLowering.NumericCompoundSteps | src/main/java/com/github/anba/es6draft/compiler/ExpressionGenerator.java:1131-1154 | the reference is evaluated once, read, and stored through once; the old value is converted before the right-hand side only when that side is a literal |
| AssignmentLowering.AddAssignmentSteps | src/main/java/com/github/anba/es6draft/compiler/ExpressionGenerator.java:1217-1253 | += as emitted: with a string or template literal on the right the old value is converted to a string before the right side is evaluated (not at all for ""); otherwise the right side is evaluated and the generic + applied |
| AssignmentLowering.TemplateAddConvertsLeftFirst | src/main/java/com/github/anba/es6draft/compiler/ExpressionGenerator.java:1228-1238 | for x += `${f()}`, as emitted, the old value is converted before the substitution with its call runs |
| AssignmentLowering.AddAssignmentStepsIntended | src/main/java/com/github/anba/es6draft/compiler/ExpressionGenerator.java:1217-1253 | the corrected +=: a template with substitutions is evaluated before the old value is converted |
| AssignmentLowering.CompoundAssignmentSteps | src/main/java/com/github/anba/es6draft/compiler/ExpressionGenerator.java:1124-1330 | as emitted: the reference evaluated exactly once, read once and stored through once; the right side evaluated once (never for += ""), after the read; the old value is converted before the right side exactly for += with a non-empty string or template operand, and for a literal operand of any other operator |
| AssignmentLowering.CompoundAssignmentStepsIntended | src/main/java/com/github/anba/es6draft/compiler/ExpressionGenerator.java:1124-1330 | the corrected compound assignment: the same reference, read and store discipline, and the old value is converted first only when the right side has no observable evaluation |
| AssignmentLowering.UpdateExpression | src/main/java/com/github/anba/es6draft/compiler/ExpressionGenerator.java:2946-2990 | ++/-- evaluate the reference once, store the old number plus or minus one, and yield the old number for postfix, the new for prefix, nothing without a completion value |
| LexicalEnvironments.EnvironmentRecord.GetReferenceOrNull | src/main/java/com/github/anba/es6draft/runtime/LexicalEnvironment.java:106-111 | a reference exactly when the record binds the name, based on this record and carrying the name |
| LexicalEnvironments.EnvironmentRecord.GetBindingValueOrNull | src/main/java/com/github/anba/es6draft/runtime/LexicalEnvironment.java:83-87 | the record's value for a bound name, nothing for an unbound one |
| LexicalEnvironments.LexicalEnvironment.ForGlobal | src/main/java/com/github/anba/es6draft/runtime/LexicalEnvironment.java:29-34 | the global environment has a null outer environment |
| LexicalEnvironments.LexicalEnvironment.Inner | src/main/java/com/github/anba/es6draft/runtime/LexicalEnvironment.java:36-40 | links the record in front of the outer environment's chain |
| LexicalEnvironments.LexicalEnvironment.FindRecordNoneIffUnbound | src/main/java/com/github/anba/es6draft/runtime/LexicalEnvironment.java:103-115 | resolution finds no record exactly when no record on the chain binds the name |
| LexicalEnvironments.LexicalEnvironment.FindRecordIsInnermost | src/main/java/com/github/anba/es6draft/runtime/LexicalEnvironment.java:103-112 | the record found is the first record on the chain, innermost first, that binds the name |
| LexicalEnvironments.LexicalEnvironment.FindValueReadsFoundRecord | src/main/java/com/github/anba/es6draft/runtime/LexicalEnvironment.java:82-112 | when every binding of the name on the chain is readable, value lookup reads exactly the record reference resolution finds |
| LexicalEnvironments.LexicalEnvironment.ChainEndsAtGlobal | src/main/java/com/github/anba/es6draft/runtime/LexicalEnvironment.java:29-40 | every chain ends at the global record |
| LexicalEnvironments.GetIdentifierReference | src/main/java/com/github/anba/es6draft/runtime/LexicalEnvironment.java:103-115 | a reference to the innermost binding record, and an unresolvable reference with null base exactly when no record on the chain binds the name |
| LexicalEnvironments.GetIdentifierValueOrThrow | src/main/java/com/github/anba/es6draft/runtime/LexicalEnvironment.java:82-90 | the first readable value on the chain, and a ReferenceError exactly when there is none |
| LexicalEnvironments.CloneDeclarativeEnvironment | src/main/java/com/github/anba/es6draft/runtime/LexicalEnvironment.java:64-68 | a fresh record with the same bindings under the same outer environment; every lookup answers as before |
| LexicalEnvironments.NewDeclarativeEnvironment | src/main/java/com/github/anba/es6draft/runtime/LexicalEnvironment.java:124-132 | a fresh empty declarative record whose outer is e, hiding nothing of e |
| LexicalEnvironments.NewObjectEnvironment | src/main/java/com/github/anba/es6draft/runtime/LexicalEnvironment.java:159-167 | a fresh object record over the object's properties whose outer is e, carrying the with flag |
| LexicalEnvironments.NewFunctionEnvironment | src/main/java/com/github/anba/es6draft/runtime/LexicalEnvironment.java:180-198 | ReferenceError exactly when the function needs super but has no home object; otherwise a fresh function record, with the this value and home object, whose outer is the function's environment |
| LexicalEnvironments.NewGlobalEnvironment | src/main/java/com/github/anba/es6draft/runtime/LexicalEnvironment.java:209-217 | the only environment with a null outer; its chain is its own record alone |
| LexicalEnvironments.NewModuleEnvironment | src/main/java/com/github/anba/es6draft/runtime/LexicalEnvironment.java:226-234 | a fresh empty module record whose outer is e |
| StringPrototype.Clamp | src/main/java/com/github/anba/es6draft/runtime/objects/StringPrototype.java:167-168 | the position clamped into [0, len]: unchanged inside, 0 below, len above |
| StringPrototype.JavaIndexOf | src/main/java/com/github/anba/es6draft/runtime/objects/StringPrototype.java:169 | -1 or an index at or after the start where the search string occurs |
| StringPrototype.JavaIndexOfIsFirst | src/main/java/com/github/anba/es6draft/runtime/objects/StringPrototype.java:169 | the index found is the first occurrence at or after the start, and -1 exactly when there is none |
| StringPrototype.MatchesAt | src/main/java/com/github/anba/es6draft/runtime/objects/StringPrototype.java:169 | the character-by-character comparison holds exactly at the occurrences |
| StringPrototype.IndexOf | src/main/java/com/github/anba/es6draft/runtime/objects/StringPrototype.java:161-170 | -1 exactly when no occurrence starts at or after the clamped position; otherwise the first such occurrence |
| StringPrototype.Contains | src/main/java/com/github/anba/es6draft/runtime/objects/StringPrototype.java:730-740 | true exactly when some occurrence starts at or after the clamped position |
| StringPrototype.StartsWith | src/main/java/com/github/anba/es6draft/runtime/objects/StringPrototype.java:691-704 | true exactly when the search string occurs at the clamped start; false whenever it would run past the end |
| StringPrototype.EndsWithAsWritten | src/main/java/com/github/anba/es6draft/runtime/objects/StringPrototype.java:710-724 | as written: true exactly when end >= the search length and the search string occurs at end (not at end - length) |
| StringPrototype.EndsWith | src/main/java/com/github/anba/es6draft/runtime/objects/StringPrototype.java:710-722 | as intended: true exactly when the search string occurs ending at the clamped end position |
| StringPrototype.EndsWithIsSuffix | src/main/java/com/github/anba/es6draft/runtime/objects/StringPrototype.java:710-722 | without an end position, the corrected endsWith holds exactly for suffixes |
| StringPrototype.EndsWithAsWrittenRejectsSuffixes | src/main/java/com/github/anba/es6draft/runtime/objects/StringPrototype.java:723 | as written, endsWith without an end position is false for every non-empty search string |
| StringPrototype.EndsWithCounterexample | src/main/java/com/github/anba/es6draft/runtime/objects/StringPrototype.java:723 | "abc".endsWith("c") is true as intended and false as written |
| StringPrototype.CharAt | src/main/java/com/github/anba/es6draft/runtime/objects/StringPrototype.java:115-124 | the empty string exactly for a position outside the string, otherwise the one character there |
| StringPrototype.RelativeIndex | src/main/java/com/github/anba/es6draft/runtime/objects/StringPrototype.java:488-489 | a negative position counts from the end and is floored at 0; a non-negative one is capped at the length |
| StringPrototype.Slice | src/main/java/com/github/anba/es6draft/runtime/objects/StringPrototype.java:482-492 | the result has length max(to - from, 0) and is the text between the relative positions when they are ordered |
| StringPrototype.Substring | src/main/java/com/github/anba/es6draft/runtime/objects/StringPrototype.java:603-614 | with both ends clamped to the input: the text from the smaller end to the larger, whichever argument is larger, and as long as their distance; for ordered in-range arguments exactly the text between them, and with no end and a start at or below 0 the whole input |
| StringPrototype.Substr | src/main/java/com/github/anba/es6draft/runtime/objects/StringPrototype.java:780-796 | empty when the clamped count is not positive, otherwise the count characters from the (relative) start |
| StringPrototype.CharAtIsSubstring | src/main/java/com/github/anba/es6draft/runtime/objects/StringPrototype.java:115-124 | charAt(p) equals substring(p, p + 1) at every position, inside or outside |
| StringPrototype.SubstringSymmetric | src/main/java/com/github/anba/es6draft/runtime/objects/StringPrototype.java:609-612 | substring gives the same text whatever the order of its two positions |
| StringPrototype.SliceAgreesWithSubstring | src/main/java/com/github/anba/es6draft/runtime/objects/StringPrototype.java:482-492 | for ordered non-negative positions slice and substring agree |
| StringPrototype.SliceSuffix | src/main/java/com/github/anba/es6draft/runtime/objects/StringPrototype.java:488 | slice(-k) is the last k characters |
| StringPrototype.SubstrAgreesWithSubstring | src/main/java/com/github/anba/es6draft/runtime/objects/StringPrototype.java:780-796 | substr(start, n) equals substring(start, start + n) for in-range arguments |
| StringPrototype.RepeatedLength | src/main/java/com/github/anba/es6draft/runtime/objects/StringPrototype.java:680-683 | n copies of s have length \|s\| * n |
| StringPrototype.RepeatedAt | src/main/java/com/github/anba/es6draft/runtime/objects/StringPrototype.java:680-683 | character \|s\| * k + j of the repetition is s[j] |
| StringPrototype.RepeatedAdd | src/main/java/com/github/anba/es6draft/runtime/objects/StringPrototype.java:680-683 | repeating a + b times is repeating a times followed by repeating b times |
| StringPrototype.Repeat | src/main/java/com/github/anba/es6draft/runtime/objects/StringPrototype.java:670-688 | "" for a zero count; a RangeError exactly for a negative or infinite count; otherwise s repeated min(n, INT_MAX) times |
| StringPrototype.PiecesFrom | src/main/java/com/github/anba/es6draft/runtime/objects/StringPrototype.java:571-595 | the cut of the input at each non-overlapping occurrence of a non-empty separator has at least one piece |
| StringPrototype.SplitJoinRoundTrip | src/main/java/com/github/anba/es6draft/runtime/objects/StringPrototype.java:498-598 | joining the pieces of a split with the same separator gives back the input |
| StringPrototype.PiecesJoin | src/main/java/com/github/anba/es6draft/runtime/objects/StringPrototype.java:571-595 | the pieces cut from position p, joined with the separator, are the input from p |
| StringPrototype.PiecesAvoidSeparator | src/main/java/com/github/anba/es6draft/runtime/objects/StringPrototype.java:571-595 | no piece cut by a non-empty separator contains that separator |
| StringPrototype.SplitPiecesAvoidSeparator | src/main/java/com/github/anba/es6draft/runtime/objects/StringPrototype.java:498-598 | no piece of a split by a non-empty separator contains it |
| StringPrototype.SplitEmptySeparator | src/main/java/com/github/anba/es6draft/runtime/objects/StringPrototype.java:571-595 | with the empty separator every piece is exactly one character |
| StringPrototype.SplitEmptyInput | src/main/java/com/github/anba/es6draft/runtime/objects/StringPrototype.java:564-570 | an empty input splits into no pieces when it starts with the separator (only the empty one), else into itself |
| StringPrototype.SplitLimit | src/main/java/com/github/anba/es6draft/runtime/objects/StringPrototype.java:503 | the limit as ToUint32, below 2^32, with undefined meaning 2^32 - 1 |
| StringPrototype.Split | src/main/java/com/github/anba/es6draft/runtime/objects/StringPrototype.java:498-518 | no pieces for a zero limit, the whole input for an undefined separator, else the first lim pieces of the cut |
| StringPrototype.SplitOnString | src/main/java/com/github/anba/es6draft/runtime/objects/StringPrototype.java:562-596 | the string-separator branch returns the first lim pieces of the cut |
| StringPrototype.CutPieces | src/main/java/com/github/anba/es6draft/runtime/objects/StringPrototype.java:571-595 | the p/q cutting loop over a non-empty input returns the first lim pieces |
| StringPrototype.CutLoopPieces | src/main/java/com/github/anba/es6draft/runtime/objects/StringPrototype.java:571-595 | from any reachable state of the loop, what it returns is the first lim pieces |
| StringPrototype.SubstitutionWithoutDollar | src/main/java/com/github/anba/es6draft/runtime/objects/StringPrototype.java:426-448 | a template without $ is inserted literally |
| StringPrototype.SubstitutionAppend | src/main/java/com/github/anba/es6draft/runtime/objects/StringPrototype.java:426-448 | the expansion of t1 + t2 is the expansion of t1 followed by that of t2, when t1 does not end inside a $ pair |
| StringPrototype.SubstitutionPatterns | src/main/java/com/github/anba/es6draft/runtime/objects/StringPrototype.java:430-443 | as intended, $$ is "$", $& the match, $` the text before it, $' the text after it, and a lone $ itself |
| StringPrototype.SubstitutionPair | src/main/java/com/github/anba/es6draft/runtime/objects/StringPrototype.java:428-443 | a template of $ and one more character expands to what that pattern stands for |
| StringPrototype.ExpandReplacement | src/main/java/com/github/anba/es6draft/runtime/objects/StringPrototype.java:424-448 | the template scan with the patterns as intended computes GetSubstitution |
| StringPrototype.Replace | src/main/java/com/github/anba/es6draft/runtime/objects/StringPrototype.java:412-451 | as written: the input unchanged when the search string does not occur; otherwise it fails exactly when the template scan as written throws, and else gives the text before the first occurrence, the replacement as written, and the text after it |
| StringPrototype.ReplaceIntended | src/main/java/com/github/anba/es6draft/runtime/objects/StringPrototype.java:412-423 | the corrected replace: the input unchanged when the search string does not occur; otherwise the text before the first occurrence, the callback result or GetSubstitution of the template, and the text after it |
| StringPrototype.SubstitutionAsWrittenWithoutDollar | src/main/java/com/github/anba/es6draft/runtime/objects/StringPrototype.java:426-448 | a template without `$` is copied into the result unchanged by the scan as written, which then never throws |
| StringPrototype.ReplaceAgreesWithoutDollar | src/main/java/com/github/anba/es6draft/runtime/objects/StringPrototype.java:424-448 | for a template without `$`, replace as written and as intended insert the same text, the template itself |
| StringPrototype.ReplaceTouchesFirstOccurrence | src/main/java/com/github/anba/es6draft/runtime/objects/StringPrototype.java:413 | no occurrence starts before the replaced one |
| StringPrototype.ExpandReplacementAsWritten | src/main/java/com/github/anba/es6draft/runtime/objects/StringPrototype.java:424-448 | the template scan as written computes SubstitutionAsWritten, with None where Java throws |
| StringPrototype.SubstitutionAsWrittenAppend | src/main/java/com/github/anba/es6draft/runtime/objects/StringPrototype.java:426-448 | as written, the scan of t1 + t2 chains the scans of t1 and t2 |
| StringPrototype.SubstitutionAsWrittenPatterns | src/main/java/com/github/anba/es6draft/runtime/objects/StringPrototype.java:430-443 | as written, $& is the search string, $` and $' are cut from the search string at the match index, and $$ stays "$$" |
| StringPrototype.SubstitutionAsWrittenPair | src/main/java/com/github/anba/es6draft/runtime/objects/StringPrototype.java:428-443 | as written, a $ pair expands to that pattern alone |
| StringPrototype.SubstitutionAsWrittenLiteral | src/main/java/com/github/anba/es6draft/runtime/objects/StringPrototype.java:445-447 | as written, a one-character template is copied |
| StringPrototype.DollarDollarCounterexample | src/main/java/com/github/anba/es6draft/runtime/objects/StringPrototype.java:440-442 | "a".replace("a", "$$") gives "$$" as written and "$" as intended |
| StringPrototype.PrefixSuffixAsWritten | src/main/java/com/github/anba/es6draft/runtime/objects/StringPrototype.java:434-439 | as written, the template "[$`$']" of "abc".replace("b", …) expands to "[b]": prefix and suffix are cut from the search string "b" |
| StringPrototype.PrefixSuffixIntended | src/main/java/com/github/anba/es6draft/runtime/objects/StringPrototype.java:434-439 | the same replacement as intended expands the template to "[ac]" |
| StringPrototype.PrefixThrowsCounterexample | src/main/java/com/github/anba/es6draft/runtime/objects/StringPrototype.java:434-435 | as written, a match index past the search string's length makes $` throw |
| Bindings.ParameterEnvironment | src/main/java/com/github/anba/es6draft/compiler/BindingInitializationGenerator.java:150-175 | formal parameters go into a record held in a local exactly when one is supplied, never into one taken from the stack |
| Bindings.NameOf | src/main/java/com/github/anba/es6draft/compiler/BindingInitializationGenerator.java:527-530 | an initializer gets a name exactly when the target is a plain identifier |
| Bindings.InitializeBoundName | src/main/java/com/github/anba/es6draft/compiler/BindingInitializationGenerator.java:366-380 | on success the state only grows: events appended, heap and iterators untouched |
| Bindings.BindingInitialization | src/main/java/com/github/anba/es6draft/compiler/BindingInitializationGenerator.java:106-136 | on success the state only grows, and iterators other than ones the pattern opens are untouched |
| Bindings.IteratorBindingInitialization | src/main/java/com/github/anba/es6draft/compiler/BindingInitializationGenerator.java:483-489 | the elements, left to right against one iterator, only advance that iterator |
| Bindings.IteratorBindingElement | src/main/java/com/github/anba/es6draft/compiler/BindingInitializationGenerator.java:491-589 | one element only advances the shared iterator and otherwise grows the state |
| Bindings.ObjectBindingInitialization | src/main/java/com/github/anba/es6draft/compiler/BindingInitializationGenerator.java:418-451 | the properties, in source order, all read from the same value and only grow the state |
| Bindings.KeyedBindingInitialization | src/main/java/com/github/anba/es6draft/compiler/BindingInitializationGenerator.java:612-667 | one property: key, GetV, default, target; the state only grows |
| Bindings.InitializeBoundNameByMode | src/main/java/com/github/anba/es6draft/compiler/BindingInitializationGenerator.java:366-380 | without an environment: ResolveBinding then PutValue, a ReferenceError exactly for an unresolvable name in strict code; with one: the record is initialized and the store untouched; the name is then bound to the value |
| Bindings.ElementCursor | src/main/java/com/github/anba/es6draft/compiler/BindingInitializationGenerator.java:491-589 | an element other than a rest steps the iterator once, never past its end; a rest element drains it |
| Bindings.IteratorCursorAfter | src/main/java/com/github/anba/es6draft/compiler/BindingInitializationGenerator.java:483-489 | after an element list the iterator sits where stepping once per element (and draining for a rest) puts it; nested patterns never move it |
| Bindings.FlatElementsOpenNoIterator | src/main/java/com/github/anba/es6draft/compiler/BindingInitializationGenerator.java:483-589 | elements holding no array pattern at any depth, object patterns included, open no further iterator |
| Bindings.BindingOpensNoIterator | src/main/java/com/github/anba/es6draft/compiler/BindingInitializationGenerator.java:106-136 | a binding without array patterns, however deeply its object patterns nest, opens no iterator |
| Bindings.PropertiesOpenNoIterator | src/main/java/com/github/anba/es6draft/compiler/BindingInitializationGenerator.java:418-451 | the properties of an object pattern without nested array patterns open no iterator |
| Bindings.KeyedOpensNoIterator | src/main/java/com/github/anba/es6draft/compiler/BindingInitializationGenerator.java:612-667 | one property whose target holds no array pattern opens no iterator |
| Bindings.ArrayPatternUsesOneIterator | src/main/java/com/github/anba/es6draft/compiler/BindingInitializationGenerator.java:398-415 | a non-iterable value is a TypeError; otherwise an iterator is opened first, over the value's iteration values, and left where the elements put it; without nested array patterns at any depth it is the only one opened |
| Bindings.ElisionDiscards | src/main/java/com/github/anba/es6draft/compiler/BindingInitializationGenerator.java:491-495 | an elision steps the iterator once and binds nothing |
| Bindings.SingleNameElementOrder | src/main/java/com/github/anba/es6draft/compiler/BindingInitializationGenerator.java:498-561 | a single-name element pulls exactly one value, runs its initializer exactly when that value is undefined, and binds the pulled or the default value |
| Bindings.AnonymousFunctionNamed | src/main/java/com/github/anba/es6draft/compiler/BindingInitializationGenerator.java:527-530 | an anonymous function default of a single-name element gets the bound name as its name property |
| Bindings.PatternTargetUnnamed | src/main/java/com/github/anba/es6draft/compiler/BindingInitializationGenerator.java:650-653 | a pattern target leaves an anonymous function default unnamed |
| Bindings.RestBindsRemainder | src/main/java/com/github/anba/es6draft/compiler/BindingInitializationGenerator.java:573-589 | a rest element drains the iterator into a fresh array of exactly the values not yet taken and binds that array |
| Bindings.KeyedPropertyOrder | src/main/java/com/github/anba/es6draft/compiler/BindingInitializationGenerator.java:612-667 | the key comes first (shorthand: the bound name; literal: itself; computed: ToPropertyKey of the evaluated expression), then the single GetV of that key, then default and binding |
| Bindings.ShorthandIsLiteralKeyed | src/main/java/com/github/anba/es6draft/compiler/BindingInitializationGenerator.java:427-431 | the shorthand {x = d} behaves exactly as {"x": x = d} |
| Bindings.ObjectPatternOnNullish | src/main/java/com/github/anba/es6draft/compiler/BindingInitializationGenerator.java:418-422 | no up-front check: an empty pattern accepts undefined and null, a non-empty one fails with a TypeError at its first read |
| BindingInitializationGenerator.Outcome | src/main/java/com/github/anba/es6draft/compiler/BindingInitializationGenerator.java:366-380 | a method's error result and final state correspond one to one to a spec result |
| BindingInitializationGenerator.InitializeBoundName | src/main/java/com/github/anba/es6draft/compiler/BindingInitializationGenerator.java:366-380 | the emitted steps have the meaning of Bindings.InitializeBoundName |
| BindingInitializationGenerator.BindingInitialization | src/main/java/com/github/anba/es6draft/compiler/BindingInitializationGenerator.java:398-456 | the emitted steps have the meaning of Bindings.BindingInitialization |
| BindingInitializationGenerator.IteratorBindingInitialization | src/main/java/com/github/anba/es6draft/compiler/BindingInitializationGenerator.java:483-489 | the element loop has the meaning of Bindings.IteratorBindingInitialization |
| BindingInitializationGenerator.IteratorBindingElement | src/main/java/com/github/anba/es6draft/compiler/BindingInitializationGenerator.java:491-589 | one element's steps have the meaning of Bindings.IteratorBindingElement |
| BindingInitializationGenerator.ObjectBindingInitialization | src/main/java/com/github/anba/es6draft/compiler/BindingInitializationGenerator.java:418-451 | the property loop has the meaning of Bindings.ObjectBindingInitialization |
| BindingInitializationGenerator.KeyedBindingInitialization | src/main/java/com/github/anba/es6draft/compiler/BindingInitializationGenerator.java:612-712 | one property's steps have the meaning of Bindings.KeyedBindingInitialization |
| BindingInitializationGenerator.FunctionParameterBinding | src/main/java/com/github/anba/es6draft/compiler/BindingInitializationGenerator.java:150-175 | formal parameters are bound against the arguments iterator, into the local record when one is supplied, through references otherwise |
| Destructuring.DestructuringAssignmentEvaluation | src/main/java/com/github/anba/es6draft/compiler/DestructuringAssignmentGenerator.java:145-186 | on success the state only grows: events appended, heap and iterators only added to |
| Destructuring.IteratorDestructuringAssignment | src/main/java/com/github/anba/es6draft/compiler/DestructuringAssignmentGenerator.java:153-155 | the elements, left to right against one iterator, only advance that iterator |
| Destructuring.IteratorDestructuringAssignmentEvaluation | src/main/java/com/github/anba/es6draft/compiler/DestructuringAssignmentGenerator.java:199-270 | one element only advances the shared iterator and otherwise grows the state |
| Destructuring.ObjectDestructuringAssignment | src/main/java/com/github/anba/es6draft/compiler/DestructuringAssignmentGenerator.java:161-185 | the properties, in source order, all read from the same value and only grow the state |
| Destructuring.KeyedDestructuringAssignmentEvaluation | src/main/java/com/github/anba/es6draft/compiler/DestructuringAssignmentGenerator.java:285-330 | one property: key, GetV, default, then target; the state only grows |
| Destructuring.DestructuringAssignmentExpression | src/main/java/com/github/anba/es6draft/compiler/ExpressionGenerator.java:1091-1103 | the right-hand side is evaluated first and destructured; the state only grows |
| Destructuring.UnnamedDefault | src/main/java/com/github/anba/es6draft/compiler/DestructuringAssignmentGenerator.java:224-234 | the default runs only for an undefined value, and a function it creates gets no name |
| Destructuring.ReferenceBeforeNext | src/main/java/com/github/anba/es6draft/compiler/DestructuringAssignmentGenerator.java:206-245 | a reference target is evaluated before the iterator steps, then the default may run, then the value is stored; a ReferenceError exactly for an unresolvable name in strict code |
| Destructuring.RestArrayBeforeReference | src/main/java/com/github/anba/es6draft/compiler/DestructuringAssignmentGenerator.java:247-270 | a rest element drains the iterator into a fresh array of the values not yet taken before its reference is evaluated, then stores it |
| Destructuring.NestedElementPattern | src/main/java/com/github/anba/es6draft/compiler/DestructuringAssignmentGenerator.java:237-239 | a nested pattern is destructured from the pulled, possibly defaulted, value after one step of the iterator |
| Destructuring.ElementCursor | src/main/java/com/github/anba/es6draft/compiler/DestructuringAssignmentGenerator.java:199-270 | an element other than a rest steps the iterator once, never past its end; a rest element drains it |
| Destructuring.IteratorCursorAfter | src/main/java/com/github/anba/es6draft/compiler/DestructuringAssignmentGenerator.java:153-155 | after the element list the iterator sits where stepping once per element (and draining for a rest) puts it |
| Destructuring.ArrayPatternUsesOneIterator | src/main/java/com/github/anba/es6draft/compiler/DestructuringAssignmentGenerator.java:145-158 | a non-iterable value is a TypeError; otherwise one iterator over its values is opened before anything else and left where the elements put it |
| Destructuring.ReadBeforeReference | src/main/java/com/github/anba/es6draft/compiler/DestructuringAssignmentGenerator.java:285-330 | a keyed property evaluates its key, reads the value with GetV, applies the default, and only then evaluates and stores through the target reference |
| Destructuring.ShorthandIsLiteralKeyed | src/main/java/com/github/anba/es6draft/compiler/DestructuringAssignmentGenerator.java:165-170 | the shorthand {x = d} behaves exactly as {"x": x = d} |
| Destructuring.ObjectPatternOnNullish | src/main/java/com/github/anba/es6draft/compiler/DestructuringAssignmentGenerator.java:161-185 | no up-front check: an empty pattern accepts undefined and null, a non-empty one fails with a TypeError at its first read |
| Destructuring.KeyReadsNothing | src/main/java/com/github/anba/es6draft/compiler/DestructuringAssignmentGenerator.java:338-367 | evaluating a property name reads no property |
| Destructuring.FlatPropertyReads | src/main/java/com/github/anba/es6draft/compiler/DestructuringAssignmentGenerator.java:285-330 | a property with a reference target reads exactly once, from the source value |
| Destructuring.FlatObjectPatternReads | src/main/java/com/github/anba/es6draft/compiler/DestructuringAssignmentGenerator.java:161-185 | a flat object pattern reads exactly once per property, always from the same source value |
| Destructuring.CompletionIsRightHandSide | src/main/java/com/github/anba/es6draft/compiler/ExpressionGenerator.java:1097-1102 | the completion value is the right-hand side's value when the expression has one, none otherwise; it fails exactly when the destructuring fails |
| DestructuringAssignmentGenerator.DestructuringAssignmentEvaluation | src/main/java/com/github/anba/es6draft/compiler/DestructuringAssignmentGenerator.java:145-186 | the emitted steps have the meaning of Destructuring.DestructuringAssignmentEvaluation |
| DestructuringAssignmentGenerator.IteratorDestructuringAssignment | src/main/java/com/github/anba/es6draft/compiler/DestructuringAssignmentGenerator.java:145-158 | the element loop has the meaning of Destructuring.IteratorDestructuringAssignment |
| DestructuringAssignmentGenerator.IteratorDestructuringAssignmentEvaluation | src/main/java/com/github/anba/es6draft/compiler/DestructuringAssignmentGenerator.java:199-270 | one element's steps have the meaning of Destructuring.IteratorDestructuringAssignmentEvaluation |
| DestructuringAssignmentGenerator.ObjectDestructuringAssignment | src/main/java/com/github/anba/es6draft/compiler/DestructuringAssignmentGenerator.java:161-185 | the property loop has the meaning of Destructuring.ObjectDestructuringAssignment |
| DestructuringAssignmentGenerator.KeyedDestructuringAssignmentEvaluation | src/main/java/com/github/anba/es6draft/compiler/DestructuringAssignmentGenerator.java:285-367 | one property's steps have the meaning of Destructuring.KeyedDestructuringAssignmentEvaluation |
| DestructuringAssignmentGenerator.DestructuringAssignment | src/main/java/com/github/anba/es6draft/compiler/ExpressionGenerator.java:1091-1103 | pattern = rhs has the meaning of Destructuring.DestructuringAssignmentExpression |
| Runtime.Evaluate | src/main/java/com/github/anba/es6draft/compiler/BindingInitializationGenerator.java:549-561 | an initializer evaluation only appends its own event; a literal leaves the state alone; an anonymous function allocates one fresh object |
| Runtime.GetIterator | src/main/java/com/github/anba/es6draft/compiler/BindingInitializationGenerator.java:399-405 | an iterator is opened at the next free id exactly when the value is iterable, over its iteration values; otherwise a TypeError |
| Runtime.Advanced | src/main/java/com/github/anba/es6draft/compiler/BindingInitializationGenerator.java:513-515 | one step advances the cursor by one, never past the end |
| Runtime.Next | src/main/java/com/github/anba/es6draft/compiler/BindingInitializationGenerator.java:513-515 | iteratorNextOrUndefined yields the value at the cursor (undefined once exhausted), records the call and only advances that iterator |
| Runtime.Drained | src/main/java/com/github/anba/es6draft/compiler/BindingInitializationGenerator.java:580-584 | a drained cursor has no values left |
| Runtime.CreateRestArray | src/main/java/com/github/anba/es6draft/compiler/BindingInitializationGenerator.java:580-584 | createRestArray allocates one fresh array holding exactly the remaining values, drains the iterator, and returns that array |
| Runtime.NatToString | src/main/java/com/github/anba/es6draft/compiler/BindingInitializationGenerator.java:696-712 | the decimal digits of a natural number, one digit exactly for numbers below 10 |
| Runtime.ToPropertyKey | src/main/java/com/github/anba/es6draft/compiler/BindingInitializationGenerator.java:696-712 | a string converts to itself and a non-negative integer to its decimal digits |
| Runtime.GetV | src/main/java/com/github/anba/es6draft/compiler/BindingInitializationGenerator.java:632-638 | a TypeError exactly for undefined and null; otherwise the read is recorded and yields the property's value when present |
| Runtime.SetFunctionName | src/main/java/com/github/anba/es6draft/compiler/BindingInitializationGenerator.java:527-530 | the function object gets a name property with the given name and nothing else changes |
| Runtime.ApplyDefault | src/main/java/com/github/anba/es6draft/compiler/BindingInitializationGenerator.java:517-533 | the initializer runs exactly when the value is undefined; an anonymous function default is named after the bound identifier only when there is one |
| Runtime.EvaluatePropertyName | src/main/java/com/github/anba/es6draft/compiler/BindingInitializationGenerator.java:675-712 | a literal name is its own key; a computed name is evaluated and converted with ToPropertyKey |
| Runtime.ResolveBinding | src/main/java/com/github/anba/es6draft/compiler/BindingInitializationGenerator.java:250-264 | resolving an identifier reference is recorded and changes nothing else |
| Runtime.PutValue | src/main/java/com/github/anba/es6draft/compiler/BindingInitializationGenerator.java:266-275 | a ReferenceError exactly for an unresolvable name in strict code; otherwise the store is updated and the write recorded |
| Runtime.InitializeBinding | src/main/java/com/github/anba/es6draft/compiler/BindingInitializationGenerator.java:367-372 | the record being filled binds the name to the value and the initialization is recorded |
| Runtime.Machine.EvaluateExpr | src/main/java/com/github/anba/es6draft/compiler/BindingInitializationGenerator.java:549-561 | evaluating an initializer on the machine has the meaning of Evaluate |
| Runtime.Machine.OpenIterator | src/main/java/com/github/anba/es6draft/compiler/BindingInitializationGenerator.java:399-405 | opening an iterator on the machine has the meaning of GetIterator, and a TypeError leaves the machine unchanged |
| Runtime.Machine.IteratorNextOrUndefined | src/main/java/com/github/anba/es6draft/compiler/BindingInitializationGenerator.java:513-515 | stepping an iterator on the machine has the meaning of Next |
| Runtime.Machine.CollectRest | src/main/java/com/github/anba/es6draft/compiler/BindingInitializationGenerator.java:580-584 | createRestArray on the machine has the meaning of CreateRestArray |
| Runtime.Machine.ReadProperty | src/main/java/com/github/anba/es6draft/compiler/BindingInitializationGenerator.java:632-638 | GetV on the machine has the meaning of GetV, and a TypeError leaves the machine unchanged |
| Runtime.Machine.ApplyInitializer | src/main/java/com/github/anba/es6draft/compiler/BindingInitializationGenerator.java:517-533 | applying a default on the machine has the meaning of ApplyDefault |
| Runtime.Machine.EvaluateKey | src/main/java/com/github/anba/es6draft/compiler/BindingInitializationGenerator.java:675-712 | evaluating a property name on the machine has the meaning of EvaluatePropertyName |
| Runtime.Machine.ResolveReference | src/main/java/com/github/anba/es6draft/compiler/BindingInitializationGenerator.java:250-264 | ResolveBinding on the machine has the meaning of ResolveBinding |
| Runtime.Machine.Store | src/main/java/com/github/anba/es6draft/compiler/DestructuringAssignmentGenerator.java:84-88 | PutValue on the machine has the meaning of PutValue, and a ReferenceError leaves the machine unchanged |
| Runtime.Machine.Initialize | src/main/java/com/github/anba/es6draft/compiler/BindingInitializationGenerator.java:367-372 | initializing a binding on the machine has the meaning of InitializeBinding |
| LanguageTags.LowerASCIIValid | src/main/java/com/github/anba/es6draft/runtime/objects/intl/LanguageTagParser.java:268-291 | lowering succeeds exactly when every character is an ASCII letter, digit or `-`; it keeps the length and the non-upper-case characters, and lowering again changes nothing |
| LanguageTags.TokenEnd | src/main/java/com/github/anba/es6draft/runtime/objects/intl/LanguageTagParser.java:240-258 | a token is the longest run of alphanumerics from its start: everything before its end is alphanumeric, the character at its end is not |
| LanguageTags.NextStart | src/main/java/com/github/anba/es6draft/runtime/objects/intl/LanguageTagParser.java:240-258 | the next token starts past the current one, so a non-empty token always advances the parser |
| LanguageTags.Token | src/main/java/com/github/anba/es6draft/runtime/objects/intl/LanguageTagParser.java:240-258 | the current token is alphanumeric and exactly as long as the run the scanner found |
| LanguageTags.TokenKind | src/main/java/com/github/anba/es6draft/runtime/objects/intl/LanguageTagParser.java:240-258 | the token kind is ALPHA exactly for an all-letter token, DIGIT exactly for an all-digit token, and empty exactly for the empty token |
| LanguageTags.Consume | src/main/java/com/github/anba/es6draft/runtime/objects/intl/LanguageTagParser.java:236-238 | consuming moves to the next token and changes nothing else |
| LanguageTags.Language | src/main/java/com/github/anba/es6draft/runtime/objects/intl/LanguageTagParser.java:398-412 | language advances on success, restores the state on failure, sets only language and extlangs, stores the current token as the language on success, and a 2 to 8 letter language carries extlangs only when it has 2 or 3 letters |
| LanguageTags.Extlang | src/main/java/com/github/anba/es6draft/runtime/objects/intl/LanguageTagParser.java:420-435 | on success one to three extlangs of three letters are stored; on failure the state is restored |
| LanguageTags.Script | src/main/java/com/github/anba/es6draft/runtime/objects/intl/LanguageTagParser.java:442-449 | on success the four-letter token is stored as the script and consumed; on failure nothing changes |
| LanguageTags.Region | src/main/java/com/github/anba/es6draft/runtime/objects/intl/LanguageTagParser.java:457-464 | on success the token is stored as the region and consumed; on failure nothing changes; the region shape is kept |
| LanguageTags.StoreVariant | src/main/java/com/github/anba/es6draft/runtime/objects/intl/LanguageTagParser.java:553-559 | the variant is added to the set and the duplicate flag is raised exactly when it was already there |
| LanguageTags.Variant | src/main/java/com/github/anba/es6draft/runtime/objects/intl/LanguageTagParser.java:472-484 | on success the token is stored as a variant and consumed; on failure nothing changes |
| LanguageTags.StoreExtension | src/main/java/com/github/anba/es6draft/runtime/objects/intl/LanguageTagParser.java:561-568 | the singleton maps to the value, no other entry changes, and the duplicate flag is raised exactly when the singleton was already present |
| LanguageTags.ExtensionSubtags | src/main/java/com/github/anba/es6draft/runtime/objects/intl/LanguageTagParser.java:508-511 | the subtag loop ends at or after where it starts and the length it returns covers the text from the first subtag to the last, separators included |
| LanguageTags.ExtensionSubtagsRun | src/main/java/com/github/anba/es6draft/runtime/objects/intl/LanguageTagParser.java:508-511 | the text the subtag loop takes is a run of 2 to 8 alphanumeric subtags separated by single dashes |
| LanguageTags.ExtensionText | src/main/java/com/github/anba/es6draft/runtime/objects/intl/LanguageTagParser.java:505-512 | the extension value is the input text from the first subtag to the last, and the parser stands after it |
| LanguageTags.Extension | src/main/java/com/github/anba/es6draft/runtime/objects/intl/LanguageTagParser.java:499-518 | on success the singleton is an alphanumeric other than `x` followed by a 2 to 8 character subtag, the value stored under it is the text of its subtags and the duplicate flag is raised exactly when the singleton was seen before; on failure nothing changes |
| LanguageTags.ExtensionTaken | src/main/java/com/github/anba/es6draft/runtime/objects/intl/LanguageTagParser.java:499-518 | a singleton followed by a valid subtag is always taken and stored with the text of its subtags |
| LanguageTags.ExtensionRollback | src/main/java/com/github/anba/es6draft/runtime/objects/intl/LanguageTagParser.java:499-518 | a singleton with no valid subtag after it is rolled back and nothing is stored |
| LanguageTags.PrivateuseSubtags | src/main/java/com/github/anba/es6draft/runtime/objects/intl/LanguageTagParser.java:532-534 | the private use loop never moves backwards and stays within the input |
| LanguageTags.Privateuse | src/main/java/com/github/anba/es6draft/runtime/objects/intl/LanguageTagParser.java:525-542 | on success the private use value is the rest of the input from its first subtag, and nothing else of the tag changes; on failure nothing changes |
| LanguageTags.PrivateuseRollback | src/main/java/com/github/anba/es6draft/runtime/objects/intl/LanguageTagParser.java:525-542 | an `x` with no valid subtag after it is rolled back |
| LanguageTags.VariantLoop | src/main/java/com/github/anba/es6draft/runtime/objects/intl/LanguageTagParser.java:373-377 | the variant loop succeeds only without a new duplicate, changes only the variants, and keeps their shape |
| LanguageTags.ExtensionLoop | src/main/java/com/github/anba/es6draft/runtime/objects/intl/LanguageTagParser.java:378-382 | the extension loop succeeds only without a new duplicate singleton and changes only the extensions |
| LanguageTags.Langtag | src/main/java/com/github/anba/es6draft/runtime/objects/intl/LanguageTagParser.java:369-387 | a successful langtag raises no duplicate flag and fills the tag only with subtags of the shapes the grammar demands |
| LanguageTags.DuplicateVariantFails | src/main/java/com/github/anba/es6draft/runtime/objects/intl/LanguageTagParser.java:373-377 | a variant seen twice makes the variant loop fail |
| LanguageTags.DuplicateExtensionFails | src/main/java/com/github/anba/es6draft/runtime/objects/intl/LanguageTagParser.java:378-382 | an extension singleton seen twice makes the extension loop fail |
| LanguageTags.LangtagNeedsLoops | src/main/java/com/github/anba/es6draft/runtime/objects/intl/LanguageTagParser.java:369-387 | langtag fails when its variant loop fails |
| LanguageTags.ExtensionStoresShape | src/main/java/com/github/anba/es6draft/runtime/objects/intl/LanguageTagParser.java:499-518 | a successful extension stores under an alphanumeric singleton other than `x` a value of 2 to 8 character subtags and changes no other entry |
| LanguageTags.ExtensionLoopShape | src/main/java/com/github/anba/es6draft/runtime/objects/intl/LanguageTagParser.java:378-382 | the extension loop keeps every stored extension value a run of subtags of 2 to 8 alphanumerics |
| LanguageTags.LangtagSubjectAndExtensions | src/main/java/com/github/anba/es6draft/runtime/objects/intl/LanguageTagParser.java:369-387 | a successful langtag sets the language and stores only extension values of 2 to 8 character subtags |
| LanguageTags.ParsedExtensionsShape | src/main/java/com/github/anba/es6draft/runtime/objects/intl/LanguageTagParser.java:218-229 | every extension value of a parsed tag is a run of subtags of 2 to 8 alphanumerics |
| LanguageTags.ParsedHasSubject | src/main/java/com/github/anba/es6draft/runtime/objects/intl/LanguageTagParser.java:312-314 | a parsed tag is grandfathered, has a language, or is a private use tag |
| LanguageTags.ExtensionTextShape | src/main/java/com/github/anba/es6draft/runtime/objects/intl/LanguageTagParser.java:505-512 | the text taken after a 2 to 8 character first subtag is a run of such subtags |
| LanguageTags.ParsedShape | src/main/java/com/github/anba/es6draft/runtime/objects/intl/LanguageTagParser.java:218-229 | every subtag of a parsed tag has the shape its production demands |
| LanguageTags.ParsedWithoutDuplicates | src/main/java/com/github/anba/es6draft/runtime/objects/intl/LanguageTagParser.java:369-387 | a successful parse of a tag that is not grandfathered saw no repeated variant and no repeated singleton |
| LanguageTags.ParseRejectsEmpty | src/main/java/com/github/anba/es6draft/runtime/objects/intl/LanguageTagParser.java:218-229 | the empty input is rejected |
| LanguageTags.ParseRejectsTrailingDash | src/main/java/com/github/anba/es6draft/runtime/objects/intl/LanguageTagParser.java:218-229 | an input ending in `-` is rejected |
| LanguageTags.ParseRejectsInvalidChar | src/main/java/com/github/anba/es6draft/runtime/objects/intl/LanguageTagParser.java:268-291 | an input holding a character outside letters, digits and `-` is rejected |
| LanguageTags.GrandfatheredEndsInLetter | src/main/java/com/github/anba/es6draft/runtime/objects/intl/LanguageTagParser.java:22-33 | every entry of the grandfathered tables ends in a letter |
| LanguageTags.GrandfatheredAccepted | src/main/java/com/github/anba/es6draft/runtime/objects/intl/LanguageTagParser.java:350-357 | a grandfathered tag, in any letter case, is accepted whole, lower-cased and flagged, with nothing else filled in |
| LanguageTags.IntendedNarrowsParse | src/main/java/com/github/anba/es6draft/runtime/objects/intl/LanguageTagParser.java:218-229 | the corrected parse accepts only tags the parse as written accepts, with the same result |
| LanguageTags.DanglingSubtagAccepted | src/main/java/com/github/anba/es6draft/runtime/objects/intl/LanguageTagParser.java:218-229 | the parse as written accepts `en-a` as the tag `en`, dropping the `a`; the corrected parse rejects it |
| LanguageTags.DanglingProduction | src/main/java/com/github/anba/es6draft/runtime/objects/intl/LanguageTagParser.java:369-387 | on `en-a` the productions succeed with the language `en` and stop at the untaken `a` |
| LanguageTags.OverlongPrivateuseAccepted | src/main/java/com/github/anba/es6draft/runtime/objects/intl/LanguageTagParser.java:218-229 | the parse as written accepts `x-abc-toolongtoken1` with the private use value `abc-toolongtoken1`, keeping a subtag longer than eight characters; the corrected parse rejects it |
| LanguageTags.OverlongProduction | src/main/java/com/github/anba/es6draft/runtime/objects/intl/LanguageTagParser.java:525-542 | on `x-abc-toolongtoken1` the private use production takes the rest of the input as its value and stops at the overlong token |
| LanguageTags.ParseIntended | src/main/java/com/github/anba/es6draft/runtime/objects/intl/LanguageTagParser.java:218-229 | a tag the corrected parse accepts, when not grandfathered, had every subtag taken by a production: the productions stop at the end of the input |
| LanguageTags.IntendedShape | src/main/java/com/github/anba/es6draft/runtime/objects/intl/LanguageTagParser.java:218-229 | the corrected parse keeps the subtag shapes |
| LanguageTagParsing.ToLowerASCIIOrNull | src/main/java/com/github/anba/es6draft/runtime/objects/intl/LanguageTagParser.java:268-291 | the lowering loop yields exactly the lowered input, and nothing for an input holding a character outside letters, digits and `-` |
| LanguageTagParsing.LanguageTagParser.Parse | src/main/java/com/github/anba/es6draft/runtime/objects/intl/LanguageTagParser.java:218-229 | the parser object's parse returns exactly the tag that the grammar functions define for the raw input, or nothing |
| LanguageTagParsing.LanguageTagParser.Rollback | src/main/java/com/github/anba/es6draft/runtime/objects/intl/LanguageTagParser.java:231-234 | rolling back makes the saved position the current token again and leaves the tag and the flags alone |
| LanguageTagParsing.LanguageTagParser.Consume | src/main/java/com/github/anba/es6draft/runtime/objects/intl/LanguageTagParser.java:236-238 | consuming scans the token after the current one and changes nothing else |
| LanguageTagParsing.LanguageTagParser.Next | src/main/java/com/github/anba/es6draft/runtime/objects/intl/LanguageTagParser.java:240-258 | the scanner classifies the token at the position as letters, digits, mixed or empty, records its length and the position after its separator |
| LanguageTagParsing.LanguageTagParser.TokenString | src/main/java/com/github/anba/es6draft/runtime/objects/intl/LanguageTagParser.java:264-266 | the token text is the scanned token |
| LanguageTagParsing.LanguageTagParser.Alphanum | src/main/java/com/github/anba/es6draft/runtime/objects/intl/LanguageTagParser.java:549-551 | the alphanumeric test holds exactly for a non-empty token |
| LanguageTagParsing.LanguageTagParser.LanguageTag | src/main/java/com/github/anba/es6draft/runtime/objects/intl/LanguageTagParser.java:312-314 | Language-Tag tries grandfathered, then privateuse, then langtag, and ends in the state the grammar functions define |
| LanguageTagParsing.LanguageTagParser.Grandfathered | src/main/java/com/github/anba/es6draft/runtime/objects/intl/LanguageTagParser.java:350-357 | grandfathered succeeds exactly for an entry of the tables, flags the tag and consumes the whole input; otherwise nothing changes |
| LanguageTagParsing.LanguageTagParser.Langtag | src/main/java/com/github/anba/es6draft/runtime/objects/intl/LanguageTagParser.java:369-387 | langtag ends in the state the grammar function defines |
| LanguageTagParsing.LanguageTagParser.VariantLoop | src/main/java/com/github/anba/es6draft/runtime/objects/intl/LanguageTagParser.java:373-377 | the variant loop ends in the state the grammar function defines, failing on a duplicate |
| LanguageTagParsing.LanguageTagParser.ExtensionLoop | src/main/java/com/github/anba/es6draft/runtime/objects/intl/LanguageTagParser.java:378-382 | the extension loop ends in the state the grammar function defines, failing on a duplicate singleton |
| LanguageTagParsing.LanguageTagParser.Language | src/main/java/com/github/anba/es6draft/runtime/objects/intl/LanguageTagParser.java:398-412 | the language production ends in the state the grammar function defines |
| LanguageTagParsing.LanguageTagParser.Extlang | src/main/java/com/github/anba/es6draft/runtime/objects/intl/LanguageTagParser.java:420-435 | the extlang production ends in the state the grammar function defines |
| LanguageTagParsing.LanguageTagParser.Script | src/main/java/com/github/anba/es6draft/runtime/objects/intl/LanguageTagParser.java:442-449 | the script production ends in the state the grammar function defines |
| LanguageTagParsing.LanguageTagParser.Region | src/main/java/com/github/anba/es6draft/runtime/objects/intl/LanguageTagParser.java:457-464 | the region production ends in the state the grammar function defines |
| LanguageTagParsing.LanguageTagParser.Variant | src/main/java/com/github/anba/es6draft/runtime/objects/intl/LanguageTagParser.java:472-484 | the variant production ends in the state the grammar function defines |
| LanguageTagParsing.LanguageTagParser.Extension | src/main/java/com/github/anba/es6draft/runtime/objects/intl/LanguageTagParser.java:499-518 | the extension production ends in the state the grammar function defines, rolling back a singleton without subtags |
| LanguageTagParsing.LanguageTagParser.ExtensionValue | src/main/java/com/github/anba/es6draft/runtime/objects/intl/LanguageTagParser.java:503-516 | after the singleton, the subtags are taken and stored, or the parser rolls back to the singleton |
| LanguageTagParsing.LanguageTagParser.ExtensionText | src/main/java/com/github/anba/es6draft/runtime/objects/intl/LanguageTagParser.java:505-512 | the subtag loop returns the text from the first subtag to the last and leaves the tag and the flags alone |
| LanguageTagParsing.LanguageTagParser.ExtensionSubtags | src/main/java/com/github/anba/es6draft/runtime/objects/intl/LanguageTagParser.java:508-511 | the subtag loop advances over the 2 to 8 character subtags exactly as the grammar function does, adding each one's length and separator |
| LanguageTagParsing.LanguageTagParser.Privateuse | src/main/java/com/github/anba/es6draft/runtime/objects/intl/LanguageTagParser.java:525-542 | the privateuse production ends in the state the grammar function defines |
| LanguageTagParsing.LanguageTagParser.PrivateuseSubtags | src/main/java/com/github/anba/es6draft/runtime/objects/intl/LanguageTagParser.java:532-534 | the private use loop skips the 1 to 8 character subtags exactly as the grammar function does |
| LanguageTagParsing.LanguageTagParser.StoreVariant | src/main/java/com/github/anba/es6draft/runtime/objects/intl/LanguageTagParser.java:553-559 | storing a variant adds it to the set and raises the duplicate flag exactly for a variant seen before |
| LanguageTagParsing.LanguageTagParser.StoreExtension | src/main/java/com/github/anba/es6draft/runtime/objects/intl/LanguageTagParser.java:561-568 | storing an extension maps the singleton to the value and raises the duplicate flag exactly for a singleton seen before |
| LanguageTagCanonical.IndexOfDash | src/main/java/com/github/anba/es6draft/runtime/objects/intl/LanguageTagParser.java:198-201 | the index found is a separator at or after the start, or the length when there is none |
| LanguageTagCanonical.IndexOfDashFirst | src/main/java/com/github/anba/es6draft/runtime/objects/intl/LanguageTagParser.java:198-201 | no separator lies before the index found |
| LanguageTagCanonical.SubtagsFrom | src/main/java/com/github/anba/es6draft/runtime/objects/intl/LanguageTagParser.java:163-192 | the pieces between separators, the first one ending at the next separator |
| LanguageTagCanonical.SubtagsJoin | src/main/java/com/github/anba/es6draft/runtime/objects/intl/LanguageTagParser.java:163-192 | splitting at the separators and joining again gives the value back |
| LanguageTagCanonical.SubtagsWeight | src/main/java/com/github/anba/es6draft/runtime/objects/intl/LanguageTagParser.java:193 | the pieces with one separator each take up the value and one character more |
| LanguageTagCanonical.SubtagsNoDash | src/main/java/com/github/anba/es6draft/runtime/objects/intl/LanguageTagParser.java:163-192 | no piece holds a separator |
| LanguageTagCanonical.DashedJoin | src/main/java/com/github/anba/es6draft/runtime/objects/intl/LanguageTagParser.java:203-210 | writing each entry followed by a separator is the entries joined plus one trailing separator |
| LanguageTagCanonical.SortStringsSorted | src/main/java/com/github/anba/es6draft/runtime/objects/intl/LanguageTagParser.java:204-205 | the sorted entries are in ascending order and are the same entries |
| LanguageTagCanonical.InsertSorted | src/main/java/com/github/anba/es6draft/runtime/objects/intl/LanguageTagParser.java:204-205 | inserting into a sorted list keeps it sorted |
| LanguageTagCanonical.InsertPermutes | src/main/java/com/github/anba/es6draft/runtime/objects/intl/LanguageTagParser.java:204-205 | inserting keeps the entries and adds one |
| LanguageTagCanonical.StrLeTotal | src/main/java/com/github/anba/es6draft/runtime/objects/intl/LanguageTagParser.java:204-205 | the string order compares any two strings |
| LanguageTagCanonical.LongPrefix | src/main/java/com/github/anba/es6draft/runtime/objects/intl/LanguageTagParser.java:165-174 | the attributes are the leading subtags longer than two characters, and the first subtag after them is not |
| LanguageTagCanonical.KeywordGroups | src/main/java/com/github/anba/es6draft/runtime/objects/intl/LanguageTagParser.java:177-189 | the keyword groups together take up as much as the subtags they were made of |
| LanguageTagCanonical.KeywordGroupsJoin | src/main/java/com/github/anba/es6draft/runtime/objects/intl/LanguageTagParser.java:177-189 | the keyword groups joined are the subtags they group, joined |
| LanguageTagCanonical.UnicodeGroupsPartition | src/main/java/com/github/anba/es6draft/runtime/objects/intl/LanguageTagParser.java:163-192 | the attributes followed by the keyword groups are the whole value again |
| LanguageTagCanonical.AttributesShape | src/main/java/com/github/anba/es6draft/runtime/objects/intl/LanguageTagParser.java:165-174 | every attribute is one subtag longer than two characters |
| LanguageTagCanonical.GroupsWeight | src/main/java/com/github/anba/es6draft/runtime/objects/intl/LanguageTagParser.java:192-193 | what the two sorted lists write is as long as the value plus one separator |
| LanguageTagCanonical.CanonicalUnicode | src/main/java/com/github/anba/es6draft/runtime/objects/intl/LanguageTagParser.java:160-196 | the canonical `-u-` value is exactly as long as the value it reorders |
| LanguageTagCanonical.WrittenGroups | src/main/java/com/github/anba/es6draft/runtime/objects/intl/LanguageTagParser.java:175-194 | the sorted attributes and keyword groups, each followed by a separator, are the canonical value and one separator, which the length cut removes |
| LanguageTagCanonical.CanonicalizeUnicodeExtension | src/main/java/com/github/anba/es6draft/runtime/objects/intl/LanguageTagParser.java:160-196 | the scan with indexOf, the two sorted writes and the length cut yield the canonical value: the attributes sorted, then the keyword groups sorted |
| LanguageTagCanonical.ScanAttributes | src/main/java/com/github/anba/es6draft/runtime/objects/intl/LanguageTagParser.java:165-174 | the attribute loop collects exactly the leading subtags longer than two characters and stops at the first short one |
| LanguageTagCanonical.ScanKeywords | src/main/java/com/github/anba/es6draft/runtime/objects/intl/LanguageTagParser.java:177-189 | the keyword loop collects exactly the keyword groups: each key with the longer subtags after it |
| LanguageTagCanonical.KeywordsLoopGroups | src/main/java/com/github/anba/es6draft/runtime/objects/intl/LanguageTagParser.java:179-188 | the loop as a recursive function yields the keyword groups of the subtags it has not yet seen |
| LanguageTagCanonical.AppendSorted | src/main/java/com/github/anba/es6draft/runtime/objects/intl/LanguageTagParser.java:203-210 | appendSorted appends the list sorted, each entry followed by a separator |
| TagCanonicalization.ClearCaseBit | src/main/java/com/github/anba/es6draft/runtime/objects/intl/LanguageTagParser.java:112-120 | clearing bit 0x20 turns an ASCII lower-case letter into its upper-case form and leaves an upper-case letter as it is |
| TagCanonicalization.SingletonOrder | src/main/java/com/github/anba/es6draft/runtime/objects/intl/LanguageTagParser.java:137-146 | the extensions are visited in ascending singleton order, each singleton once |
| TagCanonicalization.SingletonOrderFirst | src/main/java/com/github/anba/es6draft/runtime/objects/intl/LanguageTagParser.java:137-146 | the least singleton comes first, then the rest in order |
| TagCanonicalization.Canonicalize | src/main/java/com/github/anba/es6draft/runtime/objects/intl/LanguageTagParser.java:75-153 | canonicalize builds exactly the canonical form: the registry's grandfathered or redundant replacement, `x-` and the private use part, or the subtags kind by kind |
| TagCanonicalization.TokenEndIsIndexOfDash | src/main/java/com/github/anba/es6draft/runtime/objects/intl/LanguageTagParser.java:198-201 | in lower-cased input, the end of a token as the parser finds it is where indexOf finds the next `-` |
| TagCanonicalization.RunSubtagsLong | src/main/java/com/github/anba/es6draft/runtime/objects/intl/LanguageTagParser.java:160-196 | splitting a run of 2 to 8 character tokens at `-` gives pieces of at least two characters |
| TagCanonicalization.ValueShapeWellFormed | src/main/java/com/github/anba/es6draft/runtime/objects/intl/LanguageTagParser.java:160-196 | an extension value the parser stores is well formed for the `-u-` reordering |
| TagCanonicalization.ParsedCanonicalInput | src/main/java/com/github/anba/es6draft/runtime/objects/intl/LanguageTagParser.java:75-153 | every tag that parse accepts meets the assumptions canonicalize makes of it, given the iteration order of its variants and a registry that keeps two-letter regions at least two characters long |
| TagCanonicalization.Head | src/main/java/com/github/anba/es6draft/runtime/objects/intl/LanguageTagParser.java:91-124 | the language (replaced by a registry extlang when one exists), the extlangs, the titlecased script and the region, in that order |
| TagCanonicalization.Variants | src/main/java/com/github/anba/es6draft/runtime/objects/intl/LanguageTagParser.java:125-136 | the variants in the set's iteration order, a registry match replacing the whole string built so far |
| TagCanonicalization.Extensions | src/main/java/com/github/anba/es6draft/runtime/objects/intl/LanguageTagParser.java:137-146 | the extensions from the least singleton up, each written as `-`, singleton, `-`, value, the `-u-` value canonicalized |
| TagCanonicalization.PrivateuseOnly | src/main/java/com/github/anba/es6draft/runtime/objects/intl/LanguageTagParser.java:82-84 | a tag with only a private use part canonicalizes to `x-` and that part |
| TagCanonicalization.PrivateuseLast | src/main/java/com/github/anba/es6draft/runtime/objects/intl/LanguageTagParser.java:147-150 | unless the registry replaces the whole tag, the private use part comes last, after `-x-` |
| TagCanonicalization.ScriptTitlecased | src/main/java/com/github/anba/es6draft/runtime/objects/intl/LanguageTagParser.java:110-114 | the script is written after a separator with its first letter in upper case and the rest unchanged |
| TagCanonicalization.RegionUppercased | src/main/java/com/github/anba/es6draft/runtime/objects/intl/LanguageTagParser.java:115-124 | a two-letter region is written as the registry's region with both letters in upper case |
| TagCanonicalization.ReorderedExtensions | src/test/scripts/suite262/intl402/Intl/getCanonicalLocales/canonicalized-tags.js:41 | `cmn-hans-cn-u-ca-t-ca-x-t-u` canonicalizes to `cmn-Hans-CN-t-ca-u-ca-x-t-u` |
| TagCanonicalization.UnicodeSingleKey | src/main/java/com/github/anba/es6draft/runtime/objects/intl/LanguageTagParser.java:160-196 | a `-u-` value of one two-letter key is already canonical |

## Left out

- JVM code generation is not modelled: method-name tables, `invokedynamic` bootstraps, stack shuffling, line information and scratch variables. The emitters are modelled by the steps their code performs and the order of those steps.
- Floating-point arithmetic is not modelled. Numbers are integers. ToInteger, ToUint32 and ToString of a non-integral number happen before the modelled String.prototype functions are reached.
- Java strings are sequences of 16-bit code units. Here they are sequences of Dafny characters, so lone surrogates and code-unit arithmetic on supplementary characters are not represented.
- The regular-expression branches of `split` and `replace` are not part of this model.
- Runtime.GetV: a read from a primitive base yields undefined. ToObject and the properties of the wrapper object (for example a string's `length`) are not modelled.
- Destructuring.IteratorDestructuringAssignmentEvaluation and Destructuring.KeyedDestructuringAssignmentEvaluation: an assignment target is an identifier or a nested pattern. Member-expression targets (`[o.p] = v`, `[o[k()]] = v`) are not modelled, so neither are the evaluation of their base and key nor their place in the event order.
- StringPrototype.Replace and StringPrototype.ReplaceIntended: a function replaceValue is a total Dafny function of the matched text, its position and the input. The call, its side effects and its exceptions are not modelled.
- StringPrototype.Repeat: running out of memory while building a long result is not modelled. The `(int)` cast that saturates at 2^31 - 1 is modelled.
- The Realm and the actual evaluation of eval code (PerformEval's parse and run) are not part of this model. Only the flags, the argument handling and the choice of the eval source are.
- The scope analysis that produces scopes and their declared names is not part of this model. The `with`-scope walk receives the scopes innermost first as a sequence.
- LanguageTagCanonical.SortStrings: `Arrays.sort` is modelled by an insertion sort on the same string order. Any two sorts of the same strings agree, so only the algorithm differs.
- TagCanonicalization.Canonicalize: the subtag registry (`LanguageSubtagRegistryData`) is not part of this model. Its lookups are function fields of a `Registry` value passed in. The iteration order of the `HashSet` of variants is unspecified in Java, so it is a parameter that must list the set.
- The environment-record implementations (declarative, object, function, global, module records) are not part of this model. A record is its binding map, and object records are bindings over an object's properties.
- Exceptions other than the ones the modelled code throws itself (getter side effects, proxy traps) are not modelled. A property read and a call are events in the trace, with their results given by the heap.
- Runtime.ToPropertyKey: an object key becomes `"[object Object]"` without an event. The ToPrimitive call it stands for, with a user `toString` or `valueOf` that is observable and may throw between the key's evaluation and GetV, is not modelled.
- BindingInitializationGenerator.Outcome: on an abrupt completion, the generator methods promise only the error kind. The effects performed before it (earlier stores, iterator steps, trace events) stay on the machine and are not stated. Each primitive that throws (Runtime.Machine.OpenIterator, Runtime.Machine.ReadProperty, Runtime.Machine.Store) leaves the machine unchanged.
- Concurrency is not relevant: every modelled operation is sequential.

## Findings

| source | as written | input that shows it | evidently intended | confidence | as-written member | corrected member |
|---|---|---|---|---|---|---|
| src/main/java/com/github/anba/es6draft/runtime/objects/StringPrototype.java:440-442 | in a string-search replace, `$$` is copied as `$$` | `"a".replace("a", "$$")` yields `"$$"` | `$$` inserts one `$`, as in ECMA-262 GetSubstitution and as the regex branch of the same method does | not executed | StringPrototype.DollarDollarCounterexample | StringPrototype.SubstitutionPatterns |
| src/main/java/com/github/anba/es6draft/runtime/objects/StringPrototype.java:434-436 | `` $` `` appends the search string's characters before the match index, not the input's | `` "abc".replace("b", "[$`$']") `` yields `"a[b]c"`; with a match index past the search string's length it throws | the part of the input before the match | not executed | StringPrototype.PrefixThrowsCounterexample | StringPrototype.PrefixSuffixIntended |
| src/main/java/com/github/anba/es6draft/runtime/objects/StringPrototype.java:437-439 | `$'` appends the search string from the match index, not the input after the match | `` "abc".replace("b", "[$`$']") `` yields `"a[b]c"` instead of `"a[ac]c"` | the part of the input after the match | not executed | StringPrototype.PrefixSuffixAsWritten | StringPrototype.PrefixSuffixIntended |
| src/main/java/com/github/anba/es6draft/runtime/objects/StringPrototype.java:723 | endsWith tests for the search string at `end` instead of at `end - searchLength` | `"abc".endsWith("c")` is false | true exactly when the input's characters before `end` end with the search string | not executed | StringPrototype.EndsWithCounterexample | StringPrototype.EndsWithIsSuffix |
| src/main/java/com/github/anba/es6draft/compiler/ExpressionGenerator.java:1228-1238 | for `` x += `${e}` ``, the old value of `x` is converted to a string before the template's substitutions are evaluated | `` x += `${f()}` `` where `x`'s conversion and `f` are both observable | evaluate the right-hand side first, then convert both operands (section 12.14.4 of ECMA-262) | not executed | AssignmentLowering.TemplateAddConvertsLeftFirst | AssignmentLowering.AddAssignmentStepsIntended |
| src/main/java/com/github/anba/es6draft/runtime/objects/intl/LanguageTagParser.java:218-229 | parse accepts when the position after the current token is at the end, so any last token that no production took is not noticed, whatever its shape | `"en-a"` is accepted as the tag `en`; likewise `"en-abcdefghi"` (a nine-letter token) as `en`, and `"x-abc-toolongtoken1"` with the private use value `abc-toolongtoken1`, which keeps its thirteen-character subtag | every subtag taken by a production: the current token is the empty one at the end | not executed | LanguageTags.DanglingSubtagAccepted | LanguageTags.ParseIntended |
