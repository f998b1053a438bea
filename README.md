# l-lang compiler core in Dafny

This project models the tree-processing core of the l-lang compiler. l-lang is a Lisp-like language whose compiler, written in TypeScript, parses source into an AST, validates it with a catalogue of diagnostic rules, and emits JavaScript text. The model covers the string-emitting generation of the code generator. It proves properties of that model with the Dafny verifier.

The project has one Dafny module per source file. Two support modules sit beside them: `Wrappers` (Option and Result) and `Text` (joining strings and rendering integers).

- `AstTags`, `Ast` (`ast.dfy`): the closed set of node tags and one immutable `Node` datatype.
  - Every node carries its tag and a `Location`.
  - The pattern, number, identifier, match, function-carrying, class, variable and function shapes are constructors of their own.
  - The dynamic fields the visitors read are included: the operator and member flag of carrying steps, the import list, fraction numbers, and `extends` as an array.
  - Tags whose fields no core code reads are grouped in an opaque constructor.
- `SymbolTable`: a class over a sequence of scopes, innermost first. Each scope's table is an unordered Dafny `map` from names to entries. The source's `Map` keeps insertion order, but no modelled code iterates a table, so the order is never observed.
- `DependencyGraph`: import units as a tree held in a class field.
  - `find` is a depth-first search.
  - `add` fails naming both paths when the parent is missing. Otherwise it appends under the unit that `find` returns, which as written is the root or one of its direct dependencies. The class models the intended search, which appends under the parent itself (see Findings).
  - Paths are canonical `/`-separated strings, so resolving a path is the identity.
- `BaseAstVisitor`: the tag-to-handler dispatch table, the fallbacks for untyped nodes and for tags without a handler, and the logging default handlers. The log is explicit output.
- `BaseAstTreeWalker`: a class whose recursive `Visit` runs the handler and then walks the children. The children function is a parameter; the model's own is `Ast.Children`. The walk is proved to be the pre-order of the tree.
- `RuleBuilder`: the builder class, built rules as values, the diagnostics collection class, and `checkRules`.
- `NodeValidationRules`: the 22 rules, with their codes, severities, filters and predicates.
- `SyntaxRulesAstVisitor`: which rules each node kind is checked against, in which order.
- `JsSourceHelpers`: `joinArray`, source-node chunk filtering, and the scope-keyed `formatVariable`/`formatFunction` tables. A source node is modelled as its sequence of string chunks.
- `JsCompilerEmit`: the pure string builders of the code generator. They cover:
  - the pattern-match compiler (identifiers to define, element/list/map conditions, the right-nested conditional chain);
  - the carrying (pipe) compiler;
  - the per-scope emission shapes.
- `JsCompiler`: the code-generator class. It holds the scope stack, the memoised identifier table and the temporary counter. Its visit methods are proved against the `JsCompilerEmit` functions.
- `ClassLowering`, `JsCompiler.ClassBuilder` (`class_lowering.dfy`, `js_compiler.dfy`): class lowering.
  - The flattened body is partitioned into variables, functions and others.
  - A constructor is built from ctor-promoted fields.
  - Private fields get a `#` prefix.
  - Every build step pushes and pops the visitor's scope.
- `Utils`, `UniqueIdentifier`, `BracketsBalance`: identifier encoding (the JavaScript reserved words are a parameter), the temporary-name counter, and the quote-aware bracket checker.

Integers are Dafny's unbounded integers. They agree with JavaScript numbers on every integer below 2^53.

The syntax pass reaches the fraction rule (LL0002) only through the number handler. The dispatch table routes the integer, hexadecimal, binary, octal and float tags to that handler, and has no entry for `fraction-number`. So a fraction with a zero denominator is never reported by the pass: its visit only logs the missing handler. The model follows the code here (`SyntaxRulesAstVisitor.FractionNotChecked`).

In the pattern-match compiler, a string key of a map pattern is rendered by the string handler, which already quotes it. The key test therefore quotes it a second time (`StringKeyTestedQuoted`). The model keeps this as the code's behaviour.

## Model

| member | source | states |
|---|---|---|
| Utils.CodeUnits | src/compiler/utils/index.ts:24 | a character is one UTF-16 code unit below U+10000 and a surrogate pair above, so `charCodeAt` sees one or two units |
| Utils.HexAllowed | src/compiler/utils/index.ts:24 | `toString(16)` of a code unit uses only lower-case hexadecimal digits, all characters the pattern keeps |
| Utils.EscapeChar | src/compiler/utils/index.ts:23-24 | the replacement of one character is non-empty and made only of `[._a-zA-Z0-9]` |
| Utils.Escape | src/compiler/utils/index.ts:23-24 | the escaped text holds only `[._a-zA-Z0-9]` and is at least as long as the input |
| Utils.EncodeIdentifier | src/compiler/utils/index.ts:22-29 | the encoded identifier holds only `[._a-zA-Z0-9]` |
| Utils.EscapeConcat | src/compiler/utils/index.ts:23-24 | the global replace works character by character: escaping distributes over concatenation |
| Utils.EscapeAllowed | src/compiler/utils/index.ts:23-24 | a string of allowed characters is left unchanged by the replace |
| Utils.EscapeOne | src/compiler/utils/index.ts:23-24 | an allowed character is kept; any other character below U+10000 becomes the lower-case hexadecimal of its code |
| Utils.PrefixIff | src/compiler/utils/index.ts:25-27 | the result is "_" plus the escaped text exactly when the escaped text is reserved or starts with a digit |
| Utils.EncodeIdentity | src/compiler/utils/index.ts:22-29 | an allowed, non-reserved name not starting with a digit is returned unchanged |
| Utils.EncodeCollides | src/compiler/utils/index.ts:22-29 | the encoding is not injective: "a-" and "a2d" both become "a2d" |
| UniqueIdentifier.DecimalInjective | src/compiler/utils/uniqueIdentifier.ts:6 | different counter values print as different decimal strings |
| UniqueIdentifier.NameForInjective | src/compiler/utils/uniqueIdentifier.ts:2-6 | prefix plus counter is injective in the counter |
| UniqueIdentifier.Generator.constructor | src/compiler/utils/uniqueIdentifier.ts:3 | the counter starts at 1 with nothing handed out |
| UniqueIdentifier.Generator.Next | src/compiler/utils/uniqueIdentifier.ts:5-7 | the result is "__ll_tmp_id_" followed by the counter's old value, the counter grows by exactly 1, and the result differs from every earlier one |
| UniqueIdentifier.FirstIdentifier | src/compiler/utils/uniqueIdentifier.ts:2-6 | the first identifier handed out is "__ll_tmp_id_1" |
| BracketsBalance.CloserOf | src/compiler/utils/checkBracketsBalance.ts:1-3 | the `brackets` table maps each opener to a closer |
| BracketsBalance.OpenerOf | src/compiler/utils/checkBracketsBalance.ts:1-3 | each closer belongs to exactly one opener: ( ), [ ], { } |
| BracketsBalance.CheckBracketsBalance | src/compiler/utils/checkBracketsBalance.ts:10-41 | the loop with its stack and in-string flag computes the recursive scan, and returns `true` exactly when the brackets outside strings are properly nested |
| BracketsBalance.Outside | src/compiler/utils/checkBracketsBalance.ts:14-26 | the characters that reach the bracket tests are only openers and closers |
| BracketsBalance.ScanIsMachine | src/compiler/utils/checkBracketsBalance.ts:13-40 | the checker's result depends only on the bracket characters outside double-quoted text |
| BracketsBalance.QuotedTextIgnored | src/compiler/utils/checkBracketsBalance.ts:14-20 | a double-quoted stretch without inner quotes has no effect on the result |
| BracketsBalance.InsideString | src/compiler/utils/checkBracketsBalance.ts:18-20 | in string state, characters other than a quote are skipped |
| BracketsBalance.MachineIffDyck | src/compiler/utils/checkBracketsBalance.ts:21-40 | from any stack of pending closers, the checker ends balanced exactly when the pending openers followed by the input are properly nested |
| BracketsBalance.BalancedIffDyck | src/compiler/utils/checkBracketsBalance.ts:38-40 | `true` exactly for input whose brackets outside strings are properly nested, in both directions |
| BracketsBalance.Examples | src/compiler/utils/checkBracketsBalance.ts:27-40 | ")" gives -1, "(]" gives 0, "((" gives 2, "([)]" gives 1, and a bracket inside quotes is ignored |
| BracketsBalance.Pending | src/compiler/utils/checkBracketsBalance.ts:22-24 | the stack holds, bottom first, the closers of the openers still waiting |
| SymbolTable.KeyOf | src/compiler/SymbolTable.ts:68 | the key is a non-empty identifier id, else the type name, else undefined |
| SymbolTable.EntryFor | src/compiler/SymbolTable.ts:70-76 | a new entry records the node's name, its tag, the innermost scope's kind and the node, and is mutable exactly for a mutable variable (default false) |
| SymbolTable.ResolveInnermost | src/compiler/SymbolTable.ts:79-86 | lookup succeeds exactly when some scope has the key, and then yields the entry of the innermost such scope |
| SymbolTable.EnterKeepsResolution | src/compiler/SymbolTable.ts:55-57 | a freshly entered scope is empty, so every name resolves as before |
| SymbolTable.EnterThenExit | src/compiler/SymbolTable.ts:55-61 | exiting right after entering returns the new empty scope and restores the stack |
| SymbolTable.DefineThenResolve | src/compiler/SymbolTable.ts:63-86 | with a scope open, definition succeeds and the name then resolves to the new entry, over any outer definition |
| SymbolTable.DefineLocal | src/compiler/SymbolTable.ts:68-76 | defining changes only the innermost table and only its key: outer scopes and every other key resolve as before |
| SymbolTable.ScopedDefinition | src/compiler/SymbolTable.ts:55-76 | what is defined in a scope disappears when that scope is exited |
| SymbolTable.SymbolTable.constructor | src/compiler/SymbolTable.ts:45 | a new table has no scopes |
| SymbolTable.SymbolTable.CurrentScope | src/compiler/SymbolTable.ts:47-53 | throws exactly on an empty stack and otherwise yields the innermost scope's kind |
| SymbolTable.SymbolTable.EnterScope | src/compiler/SymbolTable.ts:55-57 | pushes a new, empty scope of the given kind as the innermost one |
| SymbolTable.SymbolTable.ExitScope | src/compiler/SymbolTable.ts:59-61 | removes and returns the innermost scope, or returns undefined on an empty stack and changes nothing |
| SymbolTable.SymbolTable.DefineSymbol | src/compiler/SymbolTable.ts:63-77 | throws and changes nothing on an empty stack; otherwise sets the node's entry in the innermost table, overwriting the key |
| SymbolTable.SymbolTable.ResolveSymbol | src/compiler/SymbolTable.ts:79-86 | the loop returns the entry from the innermost scope holding the name, and undefined exactly when no scope holds it |
| DependencyGraph.LastIndex | src/compiler/DependencyGraph.ts:19-21 | the last index in a range of a slash (or of a non-slash), with everything after it of the other kind, or none |
| DependencyGraph.BasenameOfPath | src/compiler/DependencyGraph.ts:19 | the base name of `d/f` and of `f` alone is the final segment `f` |
| DependencyGraph.DirnameOfPath | src/compiler/DependencyGraph.ts:21 | the directory of `d/f` is `d`, or "/" when `d` is empty |
| DependencyGraph.BeforeFirstDot | src/compiler/DependencyGraph.ts:20 | the module name holds no '.' and is the whole short name or the prefix before its first '.' |
| DependencyGraph.ModuleNameOf | src/compiler/DependencyGraph.ts:20 | the module name of `m.e` is `m` when `m` has no dot |
| DependencyGraph.CreateImportUnit | src/compiler/DependencyGraph.ts:17-32 | a new unit has no dependencies, an empty symbol table, the resolved path as full name, the base name as short name, the short name up to its first '.' as module name, and the directory of the full name as base directory |
| DependencyGraph.CreateOfPath | src/compiler/DependencyGraph.ts:17-32 | the unit of `d/m.e` is named `d/m.e`, with directory `d` (or "/"), module `m` and short name `m.e` |
| DependencyGraph.LocateSound | src/compiler/DependencyGraph.ts:53-62 | the depth-first search finds a path exactly when some unit has the name, and the path leads to such a unit |
| DependencyGraph.Find | src/compiler/DependencyGraph.ts:53-62 | the search (as intended) yields a unit exactly when the tree holds the name, and that unit bears the name |
| DependencyGraph.FindSelf | src/compiler/DependencyGraph.ts:56-58 | a unit that matches is returned itself, before its dependencies are searched |
| DependencyGraph.FindAsWrittenIsAncestor | src/compiler/DependencyGraph.ts:55-59 | as written, the search succeeds exactly when a match exists, but returns the root or the root's dependency on the path to the first match |
| DependencyGraph.FindAsWrittenMissesGrandchild | src/compiler/DependencyGraph.ts:55-59 | in the graph /r → /a → /b, looking up /b as written returns /a, not /b |
| DependencyGraph.AppendAt | src/compiler/DependencyGraph.ts:50 | appending under a unit keeps the root's own names |
| DependencyGraph.AppendAtTarget | src/compiler/DependencyGraph.ts:50 | the target unit gains exactly the new unit, at the end of its dependency list |
| DependencyGraph.AppendAtElsewhere | src/compiler/DependencyGraph.ts:50 | every unit not on the path to the target is unchanged |
| DependencyGraph.AppendAtCount | src/compiler/DependencyGraph.ts:50 | appending adds the new unit's occurrences to the count of every name: nothing is deduplicated |
| DependencyGraph.CountPositive | src/compiler/DependencyGraph.ts:53-62 | a name that occurs in the tree is contained in it |
| DependencyGraph.AddUnit | src/compiler/DependencyGraph.ts:41-51 | with the intended search (Findings): fails with the message naming both files exactly when the parent is missing; otherwise the parent gains the new unit at the end of its list, no unit off the parent's path changes, and exactly one unit with the new file's name is added |
| DependencyGraph.LocateAsWritten | src/compiler/DependencyGraph.ts:53-62 | the as-written search locates a unit exactly when the name occurs, at a path of length at most one, and that unit is what `find` returns as written |
| DependencyGraph.AddAsWritten | src/compiler/DependencyGraph.ts:41-51 | as written, fails with the message naming both files exactly when the parent is missing; otherwise the unit `find` returns (the root or a direct dependency) gains the new unit at the end of its list |
| DependencyGraph.AddAsWrittenAgrees | src/compiler/DependencyGraph.ts:41-62 | when the parent is the root or a direct dependency of it, the as-written and the intended `add` give the same graph |
| DependencyGraph.AddAsWrittenMisplaces | src/compiler/DependencyGraph.ts:41-51 | in the graph /r → /a → /b, adding /c under /b as written appends it to /a, while the intended `add` appends it to /b |
| DependencyGraph.AddThenFind | src/compiler/DependencyGraph.ts:41-62 | with the intended search, after a successful add the file can be found, and adding it again adds a second unit |
| DependencyGraph.DependencyGraph.constructor | src/compiler/DependencyGraph.ts:37-39 | the root unit is made from the root file |
| DependencyGraph.DependencyGraph.FindUnit | src/compiler/DependencyGraph.ts:53-62 | with the intended search (Findings), `find` yields a unit exactly when the graph holds the resolved name, and that unit bears it |
| DependencyGraph.DependencyGraph.Add | src/compiler/DependencyGraph.ts:41-51 | with the intended search (Findings): throws and leaves the graph unchanged when the parent is unknown; otherwise the graph becomes the tree with the new unit appended under the parent |
| Ast.TagGroups | src/compiler/ast.ts:429-543 | a node has a pattern tag exactly when it is one of the six pattern shapes, a number tag exactly when it is a number, float or fraction node, and an identifier tag exactly when it is a simple or composite identifier |
| Ast.Children | src/compiler/visitors/BaseAstTreeWalker.ts:7-13 | every node a node's fields hold is structurally inside that node |
| Ast.MatchShape | src/compiler/ast.ts:416-426 | a match's children are its scrutinee and then its cases, and every case is a match case whose pattern is a pattern node |
| Ast.ConstantPatternShape | src/compiler/ast.ts:468-471 | a constant pattern's payload is a string node or a number node |
| Ast.CarryingShape | src/compiler/ast.ts:571-589 | a carrying node is a seed identifier followed by its steps, each tagged left or right |
| BaseAstTreeWalker.AstChildrenRanked | src/compiler/visitors/BaseAstTreeWalker.ts:7-13 | the AST's own children function lists only nodes inside their parent, so the walk ends |
| BaseAstTreeWalker.PreOrder | src/compiler/visitors/BaseAstTreeWalker.ts:5-14 | the walk from a node visits that node first |
| BaseAstTreeWalker.PreOrderVisitsTree | src/compiler/visitors/BaseAstTreeWalker.ts:5-14 | the walk visits exactly the nodes reachable through node-valued fields, in both directions |
| BaseAstTreeWalker.PreOrderLength | src/compiler/visitors/BaseAstTreeWalker.ts:5-14 | the walk has one visit per node occurrence: its length is the size of the tree |
| BaseAstTreeWalker.LeafOrder | src/compiler/visitors/BaseAstTreeWalker.ts:5-7 | a node without node-valued fields is visited alone |
| BaseAstTreeWalker.ThreeLeavesOrder | src/compiler/visitors/BaseAstTreeWalker.ts:6-13 | a node is visited before its children, and they in field order |
| BaseAstTreeWalker.IfVisitOrder | src/compiler/visitors/BaseAstTreeWalker.ts:6-13 | an `if` node is visited before its condition, then-branch and else-branch, in that order |
| BaseAstTreeWalker.EffectsAppend | src/compiler/visitors/BaseAstTreeWalker.ts:9 | the handlers' effects on two walks in a row are the effects of the first followed by those of the second |
| BaseAstTreeWalker.WalkStep | src/compiler/visitors/BaseAstTreeWalker.ts:7-13 | the effects of the children's walks from the i-th on are the i-th child's walk, then the rest |
| BaseAstTreeWalker.TreeWalker.constructor | src/compiler/visitors/BaseAstTreeWalker.ts:4 | a new walker has produced no effects |
| BaseAstTreeWalker.TreeWalker.Visit | src/compiler/visitors/BaseAstTreeWalker.ts:5-14 | the walk runs the node's handler, then walks every child field in order and array children in index order, adding exactly the handlers' effects of the pre-order walk and returning nothing |
| BaseAstVisitor.TableRoutes | src/compiler/visitors/BaseAstVisitor.ts:16-86 | no handler exactly for type, type-def, map-key-type, function-type, function-modifier, for, for-each, while, indexer, compound-assignment and the untabled fraction-number; the five tabled number tags and only they go to `visitNumber`; both identifier tags and only they go to `visitIdentifier` |
| BaseAstVisitor.Visit | src/compiler/visitors/BaseAstVisitor.ts:88-99 | an untyped value logs "Cannot process node without type" and yields undefined; a tag without a handler logs "No visitor implemented" and yields undefined; otherwise the result is exactly the selected handler's |
| BaseAstVisitor.Skipped | src/compiler/visitors/BaseAstVisitor.ts:102-320 | a default handler logs one Info entry and returns undefined |
| BaseAstVisitor.DefaultVisit | src/compiler/visitors/BaseAstVisitor.ts:88-320 | with only the default handlers, every visit returns undefined and logs one entry, at Info level exactly when a handler was found and at Error level otherwise |
| Text.PadStart | src/compiler/rules/RuleBuilder.ts:181 | `padStart` keeps a string that is long enough; otherwise it fills on the left with the pad character up to the width, keeping the string as the suffix |
| Text.NatToStringDigits | src/compiler/rules/RuleBuilder.ts:181 | the decimal form of a non-negative number is made of digits only |
| RuleBuilder.CodeFor | src/compiler/rules/RuleBuilder.ts:179-183 | a string code is kept verbatim; a number becomes "LL" followed by its decimal form padded with zeros to four characters |
| RuleBuilder.CodeNumberShape | src/compiler/rules/RuleBuilder.ts:179-183 | a numeric code from 0 to 9999 becomes "LL" and exactly four digits |
| RuleBuilder.NumeralLength | src/compiler/rules/RuleBuilder.ts:181 | a number below 10000 has at most four decimal digits, so no code is longer than six characters |
| RuleBuilder.CodeFive | src/compiler/rules/RuleBuilder.ts:179-183 | `addCode(5)` stores "LL0005" |
| RuleBuilder.MakeRule | src/compiler/rules/RuleBuilder.ts:211-230 | the built rule carries the builder's message, code and severity |
| RuleBuilder.MakeRuleTest | src/compiler/rules/RuleBuilder.ts:211-221 | a built rule's test holds exactly when the tag is in the filter (not in it, when inverted) and every added test holds |
| RuleBuilder.SingleTestRule | src/compiler/rules/RuleBuilder.ts:211-221 | a rule with one test holds exactly where the filter passes and that test holds |
| RuleBuilder.RuleBuilder.constructor | src/compiler/rules/RuleBuilder.ts:172-177 | a fresh builder has code "", severity None, message "", no tests, an empty filter and no inversion |
| RuleBuilder.RuleBuilder.AddCode | src/compiler/rules/RuleBuilder.ts:179-183 | sets only the code and returns the builder itself |
| RuleBuilder.RuleBuilder.AddSeverity | src/compiler/rules/RuleBuilder.ts:185-188 | sets only the severity and returns the builder itself |
| RuleBuilder.RuleBuilder.AddMessage | src/compiler/rules/RuleBuilder.ts:190-193 | sets only the message and returns the builder itself |
| RuleBuilder.RuleBuilder.AddTest | src/compiler/rules/RuleBuilder.ts:195-198 | appends the test after the earlier ones and changes nothing else |
| RuleBuilder.RuleBuilder.AddTypeFilter | src/compiler/rules/RuleBuilder.ts:200-203 | replaces the filter list and leaves an earlier inversion set |
| RuleBuilder.RuleBuilder.AddInvertedTypeFilter | src/compiler/rules/RuleBuilder.ts:205-209 | replaces the filter list and sets the inversion |
| RuleBuilder.RuleBuilder.Build | src/compiler/rules/RuleBuilder.ts:211-230 | the rule from the builder's current parts, with the filter inverted as the builder says |
| RuleBuilder.MessageFor | src/compiler/rules/RuleBuilder.ts:103-112 | an entry carries the rule's code and severity, the node's source or "<unknown>", and the node's start line |
| RuleBuilder.OfSeverity | src/compiler/rules/RuleBuilder.ts:121-131 | a severity filter keeps exactly the entries of that severity and is no longer than the list |
| RuleBuilder.OfSeverityAppend | src/compiler/rules/RuleBuilder.ts:121-131 | the filters keep insertion order: they distribute over concatenation |
| RuleBuilder.SeveritiesPartition | src/compiler/rules/RuleBuilder.ts:121-131 | every entry is in exactly one of the four severity lists |
| RuleBuilder.RuleValidationResultsCollection.constructor | src/compiler/rules/RuleBuilder.ts:101 | a new collection is empty |
| RuleBuilder.RuleValidationResultsCollection.Add | src/compiler/rules/RuleBuilder.ts:103-115 | appends exactly one entry, the one for the rule at the node, and returns it |
| RuleBuilder.RuleValidationResultsCollection.HasErrors | src/compiler/rules/RuleBuilder.ts:117-119 | true exactly when some entry has Error severity |
| RuleBuilder.RuleValidationResultsCollection.Errors | src/compiler/rules/RuleBuilder.ts:121-123 | the Error entries in insertion order, non-empty exactly when `hasErrors` holds |
| RuleBuilder.RuleValidationResultsCollection.Warnings | src/compiler/rules/RuleBuilder.ts:125-127 | the Warning entries in insertion order |
| RuleBuilder.RuleValidationResultsCollection.Messages | src/compiler/rules/RuleBuilder.ts:129-131 | the Message entries in insertion order |
| RuleBuilder.RuleValidationResultsCollection.All | src/compiler/rules/RuleBuilder.ts:133-135 | the whole insertion-ordered list |
| RuleBuilder.Fired | src/compiler/rules/RuleBuilder.ts:158-164 | at most one entry per rule |
| RuleBuilder.FiredAppend | src/compiler/rules/RuleBuilder.ts:158-164 | the entries for a list of rules are those for its first part followed by those for the rest, so rule order is kept |
| RuleBuilder.FiredEmpty | src/compiler/rules/RuleBuilder.ts:158-164 | nothing is reported exactly when no rule's test holds |
| RuleBuilder.CheckRules | src/compiler/rules/RuleBuilder.ts:153-165 | appends one entry per rule whose test holds, in rule order, and returns exactly those entries |
| NodeValidationRules.DefaultCatches | src/compiler/rules/NodeValidationRules.ts:71 | the number of catch blocks without a filter is at most the number of catch blocks |
| NodeValidationRules.BuildFractionRule | src/compiler/rules/NodeValidationRules.ts:12-18 | the builder chain that declares LL0002 yields exactly the catalog's rule |
| NodeValidationRules.BuildInvalidMemberRule | src/compiler/rules/NodeValidationRules.ts:75-81 | the builder chain that declares LL0009, with its inverted filter, yields exactly the catalog's rule |
| NodeValidationRules.IdentifierRulesFire | src/compiler/rules/NodeValidationRules.ts:4-10 | LL0001 and LL0021 fire exactly on an identifier whose id is empty |
| NodeValidationRules.FractionRuleFires | src/compiler/rules/NodeValidationRules.ts:12-18 | LL0002 fires exactly on a fraction whose denominator is 0 |
| NodeValidationRules.ImportRulesFire | src/compiler/rules/NodeValidationRules.ts:20-39 | LL0003 fires exactly on an import with an entry that has neither file nor namespace, or an empty file; LL0004 exactly on one with an entry without symbols |
| NodeValidationRules.VariableRulesFire | src/compiler/rules/NodeValidationRules.ts:41-55 | LL0005 fires exactly on a variable without a name, LL0006 exactly on an immutable variable without a value, and LL0010 exactly on a variable with a value |
| NodeValidationRules.TryCatchRulesFire | src/compiler/rules/NodeValidationRules.ts:57-73 | LL0007 fires exactly on a try with no catch block and no finally; LL0008 exactly on one with more than one catch block without a filter |
| NodeValidationRules.InvalidMemberFires | src/compiler/rules/NodeValidationRules.ts:75-81 | LL0009 fires on every node that is neither a variable nor a function, and only there |
| NodeValidationRules.MemberTyped | src/compiler/rules/NodeValidationRules.ts:76 | a node's `_type` is "variable" or "function" exactly when it is a variable or a function |
| NodeValidationRules.VariableTyped | src/compiler/rules/NodeValidationRules.ts:42 | a node's `_type` is "variable" exactly when it is a variable |
| NodeValidationRules.FunctionTyped | src/compiler/rules/NodeValidationRules.ts:92 | a node's `_type` is "function" exactly when it is a function |
| NodeValidationRules.FunctionRulesFire | src/compiler/rules/NodeValidationRules.ts:91-113 | LL0011 fires exactly on an extern function, LL0012 exactly on a function with a non-empty body, and LL0013 exactly on an extern function with a non-empty body |
| NodeValidationRules.ParameterRuleFires | src/compiler/rules/NodeValidationRules.ts:115-121 | LL0014 fires exactly on a parameter without a name |
| NodeValidationRules.ModifierRuleNeverFires | src/compiler/rules/NodeValidationRules.ts:123-129 | LL0015 filters on "modifier", which is no node's tag, so it never fires |
| NodeValidationRules.ClassRuleFires | src/compiler/rules/NodeValidationRules.ts:131-137 | LL0016 fires exactly on a class without a name |
| NodeValidationRules.ConditionalRulesFire | src/compiler/rules/NodeValidationRules.ts:139-169 | the if rules fire exactly on an `if` without a condition or without a then branch; the when rules exactly on a `when` without a condition or without then expressions |
| NodeValidationRules.MatchRuleFires | src/compiler/rules/NodeValidationRules.ts:171-177 | LL0020 fires exactly on a match without cases |
| NodeValidationRules.SharedConditionCode | src/compiler/rules/NodeValidationRules.ts:139-161 | the if-condition and when-condition rules report the same code LL0017, with different messages |
| SyntaxRulesAstVisitor.NodesOrSelf | src/compiler/visitors/SyntaxRulesAstVisitor.ts:25 | an interface body entry that is a list (or a quote holding nodes) contributes its nodes; any other entry contributes itself |
| SyntaxRulesAstVisitor.FlattenBodyAppend | src/compiler/visitors/SyntaxRulesAstVisitor.ts:25 | flattening distributes over concatenation of bodies, so the members are checked in body order |
| SyntaxRulesAstVisitor.FlattenPlainBody | src/compiler/visitors/SyntaxRulesAstVisitor.ts:25 | a body with no list or quote entries is checked member by member as written |
| SyntaxRulesAstVisitor.FiredEachAppend | src/compiler/visitors/SyntaxRulesAstVisitor.ts:27-38 | checking the members of two concatenated lists reports the first list's violations, then the second's |
| SyntaxRulesAstVisitor.AsDiagnostics | src/compiler/visitors/SyntaxRulesAstVisitor.ts:7 | every reported violation becomes one diagnostic event, in order |
| SyntaxRulesAstVisitor.TryCatchChecks | src/compiler/visitors/SyntaxRulesAstVisitor.ts:41-47 | a try-catch node reports exactly the violations of LL0007 and then LL0008 |
| SyntaxRulesAstVisitor.VariableChecks | src/compiler/visitors/SyntaxRulesAstVisitor.ts:49-55 | a variable reports exactly the violations of LL0005 and then LL0006 |
| SyntaxRulesAstVisitor.FunctionChecks | src/compiler/visitors/SyntaxRulesAstVisitor.ts:6-8 | a function reports exactly the violations of LL0013 |
| SyntaxRulesAstVisitor.InterfaceChecks | src/compiler/visitors/SyntaxRulesAstVisitor.ts:24-39 | an interface reports, member by member of its flattened body, the violations of LL0009, LL0010, LL0011 and LL0012 in that order |
| SyntaxRulesAstVisitor.ParameterChecks | src/compiler/visitors/SyntaxRulesAstVisitor.ts:10-15 | a parameter reports exactly the violations of LL0014 on the parameter itself |
| SyntaxRulesAstVisitor.ModifiersNeverReported | src/compiler/visitors/SyntaxRulesAstVisitor.ts:12-14 | checking the parameter modifiers with LL0015 never reports anything, since its filter names a tag no node carries |
| SyntaxRulesAstVisitor.ClassChecks | src/compiler/visitors/SyntaxRulesAstVisitor.ts:57-59 | a class reports exactly the violations of LL0016 |
| SyntaxRulesAstVisitor.MatchChecks | src/compiler/visitors/SyntaxRulesAstVisitor.ts:84-86 | a match reports exactly the violations of LL0020 |
| SyntaxRulesAstVisitor.WhenChecks | src/compiler/visitors/SyntaxRulesAstVisitor.ts:68-74 | a when reports exactly the violations of LL0017 and then LL0019 |
| SyntaxRulesAstVisitor.IfChecks | src/compiler/visitors/SyntaxRulesAstVisitor.ts:76-82 | an if reports exactly the violations of LL0017 and then LL0018 |
| SyntaxRulesAstVisitor.SimpleIdentifierChecks | src/compiler/visitors/SyntaxRulesAstVisitor.ts:88-90 | a simple identifier reports exactly the violations of LL0021 |
| SyntaxRulesAstVisitor.CompositeIdentifierChecks | src/compiler/visitors/SyntaxRulesAstVisitor.ts:88-90 | a composite identifier reports exactly the violations of LL0021 |
| SyntaxRulesAstVisitor.ImportChecks | src/compiler/visitors/SyntaxRulesAstVisitor.ts:92-94 | an import reports exactly the violations of LL0003 |
| SyntaxRulesAstVisitor.NumberChecks | src/compiler/visitors/SyntaxRulesAstVisitor.ts:96-102 | an integer of any radix or a float reaches the LL0002 check and reports nothing, since that rule only applies to fractions |
| SyntaxRulesAstVisitor.NumberRouted | src/compiler/visitors/SyntaxRulesAstVisitor.ts:96 | every integer radix and the float tag are dispatched to the number handler |
| SyntaxRulesAstVisitor.FractionRuleSilent | src/compiler/visitors/SyntaxRulesAstVisitor.ts:99 | LL0002 is silent on every non-fraction number |
| SyntaxRulesAstVisitor.FractionNotChecked | src/compiler/visitors/SyntaxRulesAstVisitor.ts:96-102 | a fraction has no dispatch entry, so its visit only logs the missing handler and LL0002 is never reported during the pass |
| SyntaxRulesAstVisitor.CommentChecks | src/compiler/visitors/SyntaxRulesAstVisitor.ts:104-106 | a comment reports nothing |
| SyntaxRulesAstVisitor.ControlCommentChecks | src/compiler/visitors/SyntaxRulesAstVisitor.ts:108-110 | a control comment reports nothing |
| SyntaxRulesAstVisitor.AssignmentSkipped | src/compiler/visitors/SyntaxRulesAstVisitor.ts:5 | a kind this visitor does not override, such as an assignment, reports nothing and only logs that its inherited handler was skipped |
| SyntaxRulesAstVisitor.Inherited | src/compiler/visitors/SyntaxRulesAstVisitor.ts:5 | any node routed to an inherited handler produces exactly the one log entry of that handler |
| SyntaxRulesAstVisitor.CheckEach | src/compiler/visitors/SyntaxRulesAstVisitor.ts:12-14 | running the same rules on each node in turn appends, in order, the violations of every node |
| SyntaxRulesAstVisitor.SyntaxRulesVisitor.VisitFunctionParameter | src/compiler/visitors/SyntaxRulesAstVisitor.ts:10-15 | appends the parameter's own violations, then those of each modifier in order, and nothing else |
| SyntaxRulesAstVisitor.SyntaxRulesVisitor.VisitInterface | src/compiler/visitors/SyntaxRulesAstVisitor.ts:24-39 | appends the violations of the flattened body's members, in order, and nothing else |
| SyntaxRulesAstVisitor.SyntaxRulesVisitor.Handle | src/compiler/visitors/SyntaxRulesAstVisitor.ts:6-110 | each overriding handler appends exactly its node's diagnostics; an inherited handler leaves the results unchanged |
| SyntaxRulesAstVisitor.RunSyntaxRules | src/compiler/visitors/SyntaxRulesAstVisitor.ts:5-111 | the pass over a tree produces, node by node in walk order, exactly what each node's handler reports or logs |
| JsSourceHelpers.KeepTruthy | src/compiler/visitors/js/helpers.ts:18 | the chunk filter never lengthens the list and keeps only truthy chunks |
| JsSourceHelpers.KeepTruthyAppend | src/compiler/visitors/js/helpers.ts:18 | filtering distributes over concatenation, so the chunk order survives |
| JsSourceHelpers.KeepTruthyMembers | src/compiler/visitors/js/helpers.ts:18 | a chunk survives the filter exactly when it was given and is truthy |
| JsSourceHelpers.KeepTruthyIdentity | src/compiler/visitors/js/helpers.ts:18 | a list of truthy chunks passes unchanged |
| JsSourceHelpers.JoinArray | src/compiler/visitors/js/helpers.ts:6-8 | joining nothing gives nothing; joining n items gives 2n-1 entries |
| JsSourceHelpers.JoinArrayPositions | src/compiler/visitors/js/helpers.ts:6-8 | the items sit at the even positions, in order, and the separator at every odd one, with no trailing separator |
| JsSourceHelpers.JoinArrayMembers | src/compiler/visitors/js/helpers.ts:6-8 | apart from the separator, the join holds exactly the given items |
| JsSourceHelpers.CreateSourceNode | src/compiler/visitors/js/helpers.ts:10-20 | the node records the start line, the start column minus one and the source, and holds exactly the truthy chunks in order |
| JsSourceHelpers.FormatVariable | src/compiler/visitors/js/helpers.ts:22-54 | fails with the "not defined for variable formatting" error exactly when there is no scope; otherwise the node sits at the declaration's position |
| JsSourceHelpers.VariableChunks | src/compiler/visitors/js/helpers.ts:30-41 | with a non-empty name no chunk of the variable's layout is dropped |
| JsSourceHelpers.FormatVariableKeyword | src/compiler/visitors/js/helpers.ts:30-41 | the keyword node comes first, followed by the name, exactly in program, function, method, if and interface scope, and says `let ` exactly for a mutable variable; in the other scopes the name comes first |
| JsSourceHelpers.FormatVariableValue | src/compiler/visitors/js/helpers.ts:31 | the layout ends with " = " and the value exactly when a value is given, and with the name otherwise |
| JsSourceHelpers.FormatFunction | src/compiler/visitors/js/helpers.ts:56-99 | fails with the "not defined for function formatting" error exactly when there is no scope; otherwise the node sits at the declaration's position |
| JsSourceHelpers.OpeningMembers | src/compiler/visitors/js/helpers.ts:69-86 | the layout before the body holds the keyword chunks, and otherwise only the name, parameter chunks and fixed strings |
| JsSourceHelpers.FormatFunctionAsync | src/compiler/visitors/js/helpers.ts:65 | the "async " node appears in the layout of an async function, and in no other layout unless a caller's own chunk is that node |
| JsSourceHelpers.InterfaceFunctionHasNoBody | src/compiler/visitors/js/helpers.ts:83-84 | in interface scope the body is ignored and the layout ends with ");" |
| JsSourceHelpers.FunctionBodyLast | src/compiler/visitors/js/helpers.ts:69-86 | in every other scope the truthy body chunks come just before the closing "}" or "})" |
| JsCompilerEmit.KeepTruthy | src/compiler/visitors/JSCompilerAstVisitor.ts:535 | the argument filter never lengthens the list, and keeps exactly the truthy values given |
| JsCompilerEmit.FormatVariable | src/compiler/visitors/JSCompilerAstVisitor.ts:36-58 | fails with "undefined is not defined for variable formatting" exactly when there is no scope |
| JsCompilerEmit.FormatVariableParts | src/compiler/visitors/JSCompilerAstVisitor.ts:37-49 | a declaration is made of three independent choices: the keyword in program, function, method, if and interface scope (`let` exactly for a mutable variable); the initializer exactly when the value is truthy; and the closing ";" in program, function, method, class and interface scope |
| JsCompilerEmit.FormatFunction | src/compiler/visitors/JSCompilerAstVisitor.ts:60-83 | fails with "undefined is not defined for function formatting" exactly when there is no scope |
| JsCompilerEmit.InterfaceSignature | src/compiler/visitors/JSCompilerAstVisitor.ts:72 | in interface scope the body is not printed and the text ends with ");" |
| JsCompilerEmit.FunctionLayoutsShared | src/compiler/visitors/JSCompilerAstVisitor.ts:66-73 | function and method scope print the same arrow layout; match, when, if and variable scope print the same assignment layout |
| JsCompilerEmit.ExpressionScopeFunction | src/compiler/visitors/JSCompilerAstVisitor.ts:68-73 | in an expression scope the function is assigned to its name, with the whole in parentheses and the body as a block |
| JsCompilerEmit.ProgramFunction | src/compiler/visitors/JSCompilerAstVisitor.ts:65 | in program scope a function is a `function` declaration, with `async ` exactly when asked |
| JsCompilerEmit.WellFormedPattern | src/compiler/visitors/JSCompilerAstVisitor.ts:431-448 | every pattern the parser builds is one of the six handled shapes, so the "not implemented" comment is never emitted |
| JsCompilerEmit.SubPatterns | src/compiler/visitors/JSCompilerAstVisitor.ts:15-30 | the sub-patterns walked are list and vector elements and map pair patterns, each smaller than its parent and itself a pattern |
| JsCompilerEmit.PairPatterns | src/compiler/visitors/JSCompilerAstVisitor.ts:21 | a map pattern gives one sub-pattern per pair, in order |
| JsCompilerEmit.Dedup | src/compiler/visitors/JSCompilerAstVisitor.ts:32 | deduplication keeps the same set of names and leaves no name twice |
| JsCompilerEmit.DedupPrefix | src/compiler/visitors/JSCompilerAstVisitor.ts:32 | extending the input only appends to the result, so names keep the order of their first occurrence |
| JsCompilerEmit.DedupDistinct | src/compiler/visitors/JSCompilerAstVisitor.ts:32 | names that already occur once each come through unchanged |
| JsCompilerEmit.EncodeAll | src/compiler/visitors/JSCompilerAstVisitor.ts:436 | each id is printed through the identifier encoding, as the identifier visit prints it |
| JsCompilerEmit.RenderList | src/compiler/visitors/JSCompilerAstVisitor.ts:464 | one printed string per conjunct |
| JsCompilerEmit.AssignedListAppend | src/compiler/visitors/JSCompilerAstVisitor.ts:450-488 | the names assigned by concatenated conjuncts are those of the first part, then those of the second |
| JsCompilerEmit.NoBindings | src/compiler/visitors/JSCompilerAstVisitor.ts:453-480 | the array, length, object and key tests assign nothing |
| JsCompilerEmit.PushedElement | src/compiler/visitors/JSCompilerAstVisitor.ts:459-461 | a generated sub-condition never prints empty, so the truthiness test drops only the any-pattern's |
| JsCompilerEmit.ConditionAssigns | src/compiler/visitors/JSCompilerAstVisitor.ts:431-448 | a case's condition assigns exactly the encoded names of its identifier patterns, depth first and in order |
| JsCompilerEmit.ElementAssigns | src/compiler/visitors/JSCompilerAstVisitor.ts:490-507 | the same holds for a sub-pattern's condition once pushed |
| JsCompilerEmit.ListConditionAssigns | src/compiler/visitors/JSCompilerAstVisitor.ts:450-465 | a list condition assigns exactly the encoded identifier names of its elements, in order |
| JsCompilerEmit.MapConditionAssigns | src/compiler/visitors/JSCompilerAstVisitor.ts:472-488 | a map condition assigns exactly the encoded identifier names of its pair patterns, in order |
| JsCompilerEmit.ListConditionConjuncts | src/compiler/visitors/JSCompilerAstVisitor.ts:450-465 | a list condition is the array test, then the length test against the element count, then one conjunct for each element that is not an any-pattern |
| JsCompilerEmit.MapConditionConjuncts | src/compiler/visitors/JSCompilerAstVisitor.ts:472-488 | a map condition is the object test, then for each pair its key test and, unless the pair's pattern is an any-pattern, its sub-condition |
| JsCompilerEmit.VectorAsList | src/compiler/visitors/JSCompilerAstVisitor.ts:467-470 | a vector pattern compiles exactly as the list pattern with the same elements |
| JsCompilerEmit.StringKeyTestedQuoted | src/compiler/visitors/JSCompilerAstVisitor.ts:477-480 | a string key is printed in quotes and the key test quotes it again, so the test looks for a property whose name includes the quotes |
| JsCompilerEmit.CaseCodes | src/compiler/visitors/JSCompilerAstVisitor.ts:418-421 | one `(cond) ? (body) :` text per case, in order |
| JsCompilerEmit.ChainJoined | src/compiler/visitors/JSCompilerAstVisitor.ts:428 | the case texts joined with spaces and followed by "undefined" form the right-nested conditional chain, with the cases tried in source order |
| JsCompilerEmit.CaseConditions | src/compiler/visitors/JSCompilerAstVisitor.ts:418-420 | the i-th case is tested by the printed condition of its own pattern against the match variable |
| JsCompilerEmit.MatchReturn | src/compiler/visitors/JSCompilerAstVisitor.ts:428 | with at least one case the returned expression is the right-nested chain |
| JsCompilerEmit.CasesAssignedIds | src/compiler/visitors/JSCompilerAstVisitor.ts:13-33 | the names the cases' conditions assign are the encoded forms of the ids the pattern walk collects, in the same order |
| JsCompilerEmit.MatchDeclaresAssigned | src/compiler/visitors/JSCompilerAstVisitor.ts:405-429 | with the corrected prelude, every name a condition assigns is declared and every declared name is assigned by some condition |
| JsCompilerEmit.UndeclaredBinding | src/compiler/visitors/JSCompilerAstVisitor.ts:13-33 | with the prelude as written, the pattern `a-` binds `a2d` but declares only the raw `a-` |
| JsCompilerEmit.BindingAssignsEncoded | src/compiler/visitors/JSCompilerAstVisitor.ts:436 | the binding of the pattern `a-` assigns the encoded name `a2d` |
| JsCompilerEmit.DeclaredBinding | src/compiler/visitors/JSCompilerAstVisitor.ts:423-424 | with the corrected prelude the same pattern declares `a2d` |
| JsCompilerEmit.ApplyStep | src/compiler/visitors/JSCompilerAstVisitor.ts:180-192 | an operator other than carrying-left and carrying-right leaves the code alone; a member step of either kind appends `.fn(args)` to the code |
| JsCompilerEmit.CarryAppend | src/compiler/visitors/JSCompilerAstVisitor.ts:176-194 | carrying is a left fold: a chain split in two runs its second part on the first part's result |
| JsCompilerEmit.CarryLast | src/compiler/visitors/JSCompilerAstVisitor.ts:177-193 | one more step rewrites the code carried so far |
| JsCompilerEmit.FreeStepPlacesCode | src/compiler/visitors/JSCompilerAstVisitor.ts:184-190 | a free left step puts the carried code first among the call's arguments; a free right step puts it last |
| JsCompilerEmit.PipelineNests | src/compiler/visitors/JSCompilerAstVisitor.ts:174-195 | `x` carried through free left steps `f` and then `g` prints `g(f(x))` |
| JsCompilerEmit.IdentifierCall | src/compiler/visitors/JSCompilerAstVisitor.ts:536-554 | an identifier head is a call of a known function, a construction of a known class, and otherwise a bare reference without arguments or a call with them |
| JsCompilerEmit.OtherCallSequence | src/compiler/visitors/JSCompilerAstVisitor.ts:555-559 | with any other head, the head and the arguments form a comma expression inside a variable and a statement sequence elsewhere, the head first |
| JsCompilerEmit.IfForm | src/compiler/visitors/JSCompilerAstVisitor.ts:368-372 | `if` prints as a statement exactly outside variable, when and match scope, and as a conditional expression inside them |
| JsCompilerEmit.IfWithoutElse | src/compiler/visitors/JSCompilerAstVisitor.ts:364 | in the expression form a missing else branch prints as undefined |
| JsCompilerEmit.WhenCode | src/compiler/visitors/JSCompilerAstVisitor.ts:352-356 | inside a variable, `when` is a conditional that ends in `: undefined` |
| JsCompilerEmit.StringCode | src/compiler/visitors/JSCompilerAstVisitor.ts:269-271 | a string literal is its text between double quotes |
| JsCompiler.UnhandledTags | src/compiler/visitors/JSCompilerAstVisitor.ts:127-595 | a tag reaches none of the compiler's own handlers exactly when it has no table entry or its handler is one the compiler leaves as the base class's no-op |
| JsCompiler.PassiveUnhandled | src/compiler/visitors/JSCompilerAstVisitor.ts:127-595 | the nodes without such a handler are exactly the modifiers, the carrying steps, the fractions and the opaque nodes other than implements and extends |
| JsCompiler.CasePatterns | src/compiler/visitors/JSCompilerAstVisitor.ts:411-419 | the patterns of the cases, one per case, in order |
| JsCompiler.MatchPatterns | src/compiler/visitors/JSCompilerAstVisitor.ts:411-413 | every case of a well-formed match is a case node that holds a pattern |
| JsCompiler.JSCompiler.constructor | src/compiler/visitors/JSCompilerAstVisitor.ts:86-90 | the compiler starts in program scope with empty function, class and variable tables and an empty identifier memo |
| JsCompiler.JSCompiler.CurrentScope | src/compiler/visitors/JSCompilerAstVisitor.ts:105-107 | the innermost scope, and nothing when the stack is empty |
| JsCompiler.JSCompiler.PushScope | src/compiler/visitors/JSCompilerAstVisitor.ts:92-96 | the new scope becomes the innermost; the tables are unchanged |
| JsCompiler.JSCompiler.PopScope | src/compiler/visitors/JSCompilerAstVisitor.ts:98-103 | returns the innermost scope and removes it; an empty stack stays empty and gives nothing |
| JsCompiler.JSCompiler.NewTemp | src/compiler/visitors/JSCompilerAstVisitor.ts:408 | the match variable is the next fresh temporary name, and nothing else changes |
| JsCompiler.JSCompiler.VisitIdentifier | src/compiler/visitors/JSCompilerAstVisitor.ts:284-291 | the result is the identifier's encoding; a memoised id returns its earlier result, and the memo gains the id's entry |
| JsCompiler.JSCompiler.Visit | src/compiler/visitors/JSCompilerAstVisitor.ts:127-595 | identifiers, type names and parameters give their printed names; a string prints in double quotes, a number in its radix's notation, a float as rendered, a comment between `/* ` and ` */`, a control comment as `// ` then mode, command and the options, the wildcard pattern as `_`, and import and export give undefined, all without changing the compiler; nodes without a handler give undefined and change nothing; every visit that gives a value leaves the scope stack as it found it |
| JsCompiler.LeafCodeHandled | src/compiler/visitors/JSCompilerAstVisitor.ts:127-595 | the fixed leaf results are given exactly for strings, numbers, floats, comments, control comments, the wildcard pattern, imports and exports; each of these has a handler of the compiler's own, and none has a name result |
| JsCompiler.JSCompiler.VisitMapping | src/compiler/visitors/JSCompilerAstVisitor.ts:132-138 | `visitImport` and `visitExport` give undefined and change nothing |
| JsCompiler.JSCompiler.VisitStructuredPattern | src/compiler/visitors/JSCompilerAstVisitor.ts:509-511 | `visitAnyPattern` gives `_` and changes nothing |
| JsCompiler.JSCompiler.VisitLiteral | src/compiler/visitors/JSCompilerAstVisitor.ts:262-595 | `visitString` quotes the text, `visitNumber` prints an integer in its radix's notation (`0x`, `0b`, `0o` or decimal) and a float as rendered, `visitComment` prints `/* `, the text and ` */`, and `visitControlComment` prints `// `, the mode, the command, a space and the space-joined options; none of them changes the compiler |
| JsCompiler.JSCompiler.VisitAll | src/compiler/visitors/JSCompilerAstVisitor.ts:129 | visits the nodes in order; when all succeed there is one value per node, nodes fixed by their names give those names, and passive nodes (modifiers among them) give `undefined` |
| JsCompiler.JSCompiler.VisitWrapped | src/compiler/visitors/JSCompilerAstVisitor.ts:144-152 | the children's visits joined with the separator between the handler's fixed opening and closing texts |
| JsCompiler.JSCompiler.VisitInner | src/compiler/visitors/JSCompilerAstVisitor.ts:154-156 | a handler that returns one child's visit: undefined without a child, and the child's name when the child's name decides it |
| JsCompiler.JSCompiler.VisitAround | src/compiler/visitors/JSCompilerAstVisitor.ts:340-342 | a handler that prints one child's visit between fixed texts |
| JsCompiler.JSCompiler.VisitPair | src/compiler/visitors/JSCompilerAstVisitor.ts:381-386 | a handler that prints two children's visits with a text between them; a missing first child prints as undefined |
| JsCompiler.JSCompiler.VisitMatchCase | src/compiler/visitors/JSCompilerAstVisitor.ts:235-239 | a match case visit gives an object, which prints as "[object Object]" |
| JsCompiler.JSCompiler.VisitFormattedString | src/compiler/visitors/JSCompilerAstVisitor.ts:273-278 | string segments give their raw text, the other segments their visits, all concatenated inside backquotes |
| JsCompiler.JSCompiler.VisitName | src/compiler/visitors/JSCompilerAstVisitor.ts:295 | a declaration's name visit gives its encoded id, or undefined when there is no name |
| JsCompiler.JSCompiler.VisitVariable | src/compiler/visitors/JSCompilerAstVisitor.ts:293-308 | the declaration is formatted for the enclosing scope from the name and the value visited in variable scope, a formatter error ends the compilation, and the name is recorded last among the variables |
| JsCompiler.JSCompiler.VisitFunction | src/compiler/visitors/JSCompilerAstVisitor.ts:310-334 | the function is formatted for the enclosing scope from its name, parameters and body, visited in method scope inside a class or interface and in function scope elsewhere; on success its name is recorded last among the functions |
| JsCompiler.JSCompiler.VisitFunctionParts | src/compiler/visitors/JSCompilerAstVisitor.ts:311-318 | the name, the parameter names and the body are visited one scope deeper |
| JsCompiler.JSCompiler.VisitParams | src/compiler/visitors/JSCompilerAstVisitor.ts:336-338 | each parameter's visit is its encoded name |
| JsCompiler.JSCompiler.VisitFunctionCarrying | src/compiler/visitors/JSCompilerAstVisitor.ts:174-195 | the result is the seed identifier's encoding carried through one step per step node, in order |
| JsCompiler.JSCompiler.VisitSteps | src/compiler/visitors/JSCompilerAstVisitor.ts:177-193 | each step node, in order, rewrites the code carried so far |
| JsCompiler.JSCompiler.VisitStep | src/compiler/visitors/JSCompilerAstVisitor.ts:178-179 | a step's function and then its arguments are visited, giving the step the node describes |
| JsCompilerEmit.UndefinedJoined | src/compiler/visitors/JSCompilerAstVisitor.ts:213-215 | `undefined` joins as "", so a list of `undefined` values joined by one character is that character repeated once fewer than the list's length (none for an empty list) |
| JsCompiler.JSCompiler.VisitInterface | src/compiler/visitors/JSCompilerAstVisitor.ts:209-225 | the access-modifier visits joined by spaces, then ` interface `, the name and the body lines, all visited in interface scope, with no implements clause. The compiler has no handler for modifiers, so each visits to `undefined` and prints as "": when every access entry is a modifier, the prefix is only the separating spaces (`public static interface I` prints `  interface I {…}`) |
| JsCompiler.JSCompiler.VisitWhen | src/compiler/visitors/JSCompilerAstVisitor.ts:344-357 | the condition and expressions are visited in when scope, and the form follows the enclosing scope |
| JsCompiler.JSCompiler.VisitIf | src/compiler/visitors/JSCompilerAstVisitor.ts:359-373 | the parts are visited in if scope, with an else visit exactly when there is an else branch, and the form follows the enclosing scope |
| JsCompilerEmit.MatchCodeAgrees | src/compiler/visitors/JSCompilerAstVisitor.ts:13-33 | when every bound id encodes to itself, the match code as written equals the one that declares the encoded names |
| JsCompiler.JSCompiler.VisitMatch | src/compiler/visitors/JSCompilerAstVisitor.ts:405-429 | the match is an immediately called function of a fresh variable: as written, it declares the raw ids of the identifiers the patterns bind (see Findings) and returns the chain of the cases' conditions and bodies |
| JsCompiler.JSCompiler.VisitList | src/compiler/visitors/JSCompilerAstVisitor.ts:532-561 | an empty list throws reading `_type` of undefined; otherwise the head's and the truthy arguments' visits form a call, construction or reference for an identifier head and a sequence for any other head |
| JsCompiler.JSCompiler.VisitClass | src/compiler/visitors/JSCompilerAstVisitor.ts:197-207 | the class text comes from the builder in class scope; its plain fields are printed from their visited values, its methods from their visited bodies and its other members from their visits, each group one per line in body order; a body entry without a node list throws; the name is recorded last among the classes |
| JsCompiler.JSCompiler.LowerClass | src/compiler/visitors/JSCompilerAstVisitor.ts:200-201 | the builder's class text, with the field, method and other-member texts of the body's partition, or the error that construction raised |
| JsCompiler.JSCompiler.VisitClassName | src/compiler/ClassBuilder.ts:25 | the visit of the class's name gives the printed name |
| JsCompiler.JSCompiler.VisitVariableNames | src/compiler/ClassBuilder.ts:80-82 | the constructor fields' names, visited in order |
| JsCompiler.ClassBuilder.constructor | src/compiler/ClassBuilder.ts:18-31 | the builder records the visited name, the access modifiers' texts and both heritage clauses, and raises exactly the error of a body entry without a node list |
| JsCompiler.ClassBuilder.ProcessBody | src/compiler/ClassBuilder.ts:49-59 | each member, in order, joins exactly the group its kind selects: constructor field, plain field, method or other |
| JsCompiler.ClassBuilder.ProcessVariable | src/compiler/ClassBuilder.ts:61-74 | a variable with the `ctor` field modifier is appended to the constructor fields, and any other variable to the plain fields |
| JsCompiler.ClassBuilder.BuildConstructor | src/compiler/ClassBuilder.ts:76-97 | nothing without constructor fields; otherwise the fields' names as parameters, then one assignment per field, behind `#` when private |
| JsCompiler.ClassBuilder.BuildField | src/compiler/ClassBuilder.ts:102-118 | one plain field printed from its modifiers, its name and its value's visit |
| JsCompiler.ClassBuilder.BuildFields | src/compiler/ClassBuilder.ts:99-122 | the plain fields, printed in order in variable scope, one per line |
| JsCompiler.ClassBuilder.BuildMethod | src/compiler/ClassBuilder.ts:127-134 | one method printed from its name, its parameters and its body's visits |
| JsCompiler.ClassBuilder.BuildMethodHead | src/compiler/ClassBuilder.ts:128-130 | a method's name, or the empty string without one, then its parameters' names |
| JsCompiler.ClassBuilder.BuildMethods | src/compiler/ClassBuilder.ts:124-138 | the methods, printed in order in method scope, one per line |
| JsCompiler.ClassBuilder.BuildOtherBody | src/compiler/ClassBuilder.ts:140-142 | the other members' visits, one per line |
| JsCompiler.ClassBuilder.Build | src/compiler/ClassBuilder.ts:144-156 | the class text, with the fields, constructor, methods and other members in that order; the fields text is the plain fields printed from their visited values, the methods text the methods printed from their visited bodies, and the rest the other members' visits, each one per line |
| JsCompiler.GroupsInside | src/compiler/ClassBuilder.ts:49-59 | every group keeps its members inside the class, and each holds the node kind it promises |
| JsCompiler.VariableNames | src/compiler/ClassBuilder.ts:80-82 | one name per constructor field, as the name visit gives it |
| JsCompiler.Privates | src/compiler/ClassBuilder.ts:88 | a field is private exactly when one of its modifiers, of any kind, is `private` |
| JsCompiler.FieldTextsAt | src/compiler/ClassBuilder.ts:101-119 | the i-th printed field is the i-th field printed from its own value |
| JsCompiler.MethodTextsAt | src/compiler/ClassBuilder.ts:126-135 | the i-th printed method is the i-th method printed from its own body |
| JsCompiler.ParamNames | src/compiler/ClassBuilder.ts:129-130 | one name per parameter, as the parameter visit gives it |
| ClassLowering.Members | src/compiler/ClassBuilder.ts:50 | flattening succeeds exactly when every body entry has a node list; then every listed node is a member; otherwise the error is the one for reading `_type` of an entry without a list |
| ClassLowering.MembersBelow | src/compiler/ClassBuilder.ts:50 | the members lie inside the class node and are well formed |
| ClassLowering.FieldModifierNames | src/compiler/ClassBuilder.ts:65-67 | exactly the names of the field-kind modifiers |
| ClassLowering.Filter | src/compiler/ClassBuilder.ts:50-58 | a group holds exactly the members of its kind |
| ClassLowering.FilterAppend | src/compiler/ClassBuilder.ts:50-58 | one more member extends a group by that member exactly when it is of the group's kind, so the source order is kept |
| ClassLowering.PartitionAppend | src/compiler/ClassBuilder.ts:49-74 | one more member extends exactly the group its kind selects |
| ClassLowering.PartitionSizes | src/compiler/ClassBuilder.ts:49-74 | every member lands in exactly one group, so the group sizes add up to the member count |
| ClassLowering.CtorAssignments | src/compiler/ClassBuilder.ts:84-93 | one assignment per constructor field, in order |
| ClassLowering.CtorCode | src/compiler/ClassBuilder.ts:76-96 | the constructor text is empty exactly when there are no constructor fields |
| ClassLowering.CtorAssignmentPrivacy | src/compiler/ClassBuilder.ts:86-91 | a private field is assigned through `this.#name`, any other through `this.name` |
| ClassLowering.HeritageNames | src/compiler/ClassBuilder.ts:36 | one name per heritage entry |
| ClassLowering.HeritageClause | src/compiler/ClassBuilder.ts:33-47 | the clause is empty exactly when the list is empty |
| ClassLowering.AccessTexts | src/compiler/ClassBuilder.ts:26 | one text per access modifier |
| ClassLowering.ClassBodyOrder | src/compiler/ClassBuilder.ts:144-155 | the body is the fields, the constructor, the methods and the rest, in that order, one line break apart |

## Left out

- `visitQuote`: in default mode it prints the node as JSON text (`JSON.stringify` with `_location` dropped), and the model has no JSON serialisation of nodes. In any other mode it reads a grammar file from disk and runs a parser generator at compile time. In both modes the model's compiler returns an unmodelled marker for quote nodes.
- `visitTryCatch` code generation: it names the caught error with `randomIdentifier`. The model returns an unmodelled marker for try-catch nodes. Their validation rules are modelled.
- `visitImplements` and `visitExtends` code generation: they read a `type` field of nodes whose shape the AST does not declare. The model returns an unmodelled marker for them. Class lowering reads heritage names directly and is modelled.
- `randomIdentifier`: it depends on `Math.random` and a module-global list. The model replaces it with a `temporary: nat -> string` oracle and a counter in the compiler. The contracts give each temporary as `temporary(n)` for the counter value `n` at the time it is drawn.
- `JS_RESERVED`: the reserved-word list is not part of this model. It is a `reserved: set<string>` parameter.
- `compile` and its `new Date()` header, the compilation context and the command-line and REPL glue: orchestration and I/O.
- `context.log` messages in the code generator: informational only. For a node the generator does not handle, the model also drops the base visitor's Info "Method … skipped" and Error "No visitor implemented" messages. The base visitor's own logged messages are modelled as output (`BaseAstVisitor`).
- The `source-map` library: a source node is modelled as its list of string chunks and its recorded location. The library's own output is not modelled.
- Float formatting: a float literal carries its rendered text. JavaScript's number-to-string algorithm is not modelled.
- JS number semantics: integers are unbounded. Values beyond 2^53, where JavaScript numbers lose precision, are not modelled.
- `formatMessage` in the rule builder: terminal presentation (colours, terminal width).
- `path.resolve`, `path.basename` and `path.dirname`: paths are taken as canonical. Resolution is the identity, and base and directory names are computed over `/`.
- The builder's test closure: in the source, `build` copies only the inverted flag, the message, the code and the severity. The filter types and the tests are read through the builder each time the rule is tested. The model copies all of them at `build`. The two agree because a builder is never changed after `build`.
- LL0007 on a try-catch whose `catch` field is absent: the model holds catch blocks as a sequence, so an absent list is the empty one.
- The order in which an unmodelled handler stops a list visit: the model's list visit stops at the first unmodelled element. In the source only an exception stops it.
- ClassLowering.Members: when several body entries lack a node list, the contract says the error comes from one of them, not that it comes from the first. The messages are the two `TypeError` texts the flattening raises.
- JsCompiler.JSCompiler.Visit: its contract covers name results, the fixed leaf results, passive nodes and the balance of the scope stack. It does not state the output of a compound node. The per-handler methods state that output, for example `VisitList`, `VisitMatch`, `VisitIf`, `VisitClass` and `VisitFunction`. The dispatch methods in between (`VisitSequence`, `VisitMapping`, `VisitStructuredPattern`, `VisitSimplePattern`, `VisitLiteral` and the rest) pass on only these same generic facts.
- FieldText and MethodText on a node that is not a variable or a function: the class builder never passes one, and the model renders it as the empty string.
- The superseded code generators (the GPT and Babel copies, the recast and babel converters, the `source-map` variants under `visitors/js/`): each one duplicates the modelled algorithms or builds output through foreign libraries.
- The older validator in `src/compiler/NodeValidationRules.ts`: superseded by the `rules/` catalogue.
- `AstProvider`, the dependency-graph, symbol-table and tree-shake visitors: file I/O, a generated parser, and visitors that are empty or depend on the walker's always-undefined result. The graph update they perform is `DependencyGraph.add`.
- The runtime library (`lib/`, `deepeq`, `evaljs`): dynamic evaluation and console I/O.

- JsCompiler.JSCompiler.VisitIdentifier: the source's memo is a plain object. An id that names an `Object.prototype` member (`toString`, `constructor`, `valueOf`, `hasOwnProperty`, `__proto__`) finds the inherited member on its first visit and returns it instead of the encoding. The model's memo is a map, so it encodes these ids like any other. This also affects identifiers reached through names, lists and pattern conditions.
- SymbolTable.SymbolTable.CurrentScope: the getter's empty-stack message interpolates the same undeclared `name`, so it also throws a ReferenceError instead. The model fails with the fixed text "No current scope to define symbol".
- SymbolTable.SymbolTable.DefineSymbol: the source's empty-stack message interpolates `name`, which is not declared in that function, so building the message throws a ReferenceError instead. The model fails with the fixed text "No current scope to define symbol". Both leave the table unchanged.

## Findings

| source | as written | input that shows it | evidently intended | confidence | as-written member | corrected member |
|---|---|---|---|---|---|---|
| src/compiler/DependencyGraph.ts:53-62 | `find` returns `dependencies.find(searchImportUnit)`, which is the child whose subtree contains the match, not the match | graph `/r` → `/a` → `/b`; `find("/b")` returns the unit `/a` | return the unit whose full name matches | not executed | DependencyGraph.FindAsWrittenMissesGrandchild | DependencyGraph.Find |
| src/compiler/DependencyGraph.ts:41-51 | `add` appends under what `find` returns for the parent | graph `/r` → `/a` → `/b`; `add("/c", "/b")` appends `/c` under `/a` | append under the parent unit itself | not executed | DependencyGraph.AddAsWrittenMisplaces | DependencyGraph.DependencyGraph.Add |
| src/compiler/visitors/JSCompilerAstVisitor.ts:13-33 | `findIdentifiersToDefine` declares the raw identifier ids, while the bindings assign the encoded names | the identifier pattern `a-` declares `let a-;` and assigns the undeclared `a2d` | declare the encoded names that the bindings assign | not executed | JsCompilerEmit.UndeclaredBinding | JsCompilerEmit.MatchDeclaresAssigned |

The code generator's `VisitMatch` follows the code as written and declares the raw ids. `JsCompilerEmit.MatchCodeAgrees` states that it agrees with the corrected `MatchCode` whenever every bound id encodes to itself.
