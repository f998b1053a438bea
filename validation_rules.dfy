/**
 * The catalog of syntax rules, LL0001 to LL0021, each built from a type
 * filter and one test over the node's fields.
 */
module NodeValidationRules {
  import opened Wrappers
  import opened AstTags
  import opened Ast
  import opened RuleBuilder

  /** How many catch blocks have no filter (the default catch blocks). */
  function DefaultCatches(catches: seq<CatchBlock>): (r: nat)
    ensures r <= |catches|
  {
    if |catches| == 0 then 0
    else (if catches[0].filter.None? then 1 else 0) + DefaultCatches(catches[1..])
  }

  /** An import entry with neither a file nor a namespace, or with an empty file path. */
  predicate SourceMissing(e: ImportEntry)
  {
    (e.source.file.None? && e.source.namespace.None?) || e.source.file == Some("")
  }

  // ---- The rules' tests ----

  /** Holds of `!node.id` on an identifier. */
  predicate IdentifierUnnamed(n: Node)
  {
    IsIdentifierNode(n) && n.id == ""
  }

  /** Holds of a fraction whose denominator is 0. */
  predicate ZeroDenominator(n: Node)
  {
    n.FractionNumberNode? && n.denominator == 0
  }

  /** Holds when some import entry lacks a usable source. */
  predicate SomeSourceMissing(n: Node)
  {
    n.ImportNode? && exists i | 0 <= i < |n.imports| :: SourceMissing(n.imports[i])
  }

  /** Holds when some import entry has no symbol list. */
  predicate SomeSymbolsMissing(n: Node)
  {
    n.ImportNode? && exists i | 0 <= i < |n.imports| :: n.imports[i].symbols.None?
  }

  /** Holds of a variable without a name. */
  predicate VariableUnnamed(n: Node)
  {
    n.VariableNode? && n.name.None?
  }

  /** Holds of an immutable variable without a value. */
  predicate ConstantWithoutValue(n: Node)
  {
    n.VariableNode? && !n.mutable && n.value.None?
  }

  /** Holds of a try without catch blocks or finally. */
  predicate NoCatchNoFinally(n: Node)
  {
    n.TryCatchNode? && |n.catches| == 0 && n.finallyBody.None?
  }

  /** Holds of more than one catch block without a filter. */
  predicate SeveralDefaultCatches(n: Node)
  {
    n.TryCatchNode? && |n.catches| > 0 && DefaultCatches(n.catches) > 1
  }

  /** The test of LL0009, which always holds. */
  predicate Always(n: Node)
  {
    true
  }

  /** Holds of a variable with an initializer. */
  predicate VariableWithValue(n: Node)
  {
    n.VariableNode? && n.value.Some?
  }

  /** Holds of an extern function. */
  predicate ExternFunction(n: Node)
  {
    n.FunctionNode? && n.isExtern
  }

  /** Holds of a function with a non-empty body. */
  predicate FunctionWithBody(n: Node)
  {
    n.FunctionNode? && |n.body| > 0
  }

  /** Holds of an extern function with a non-empty body. */
  predicate ExternWithBody(n: Node)
  {
    n.FunctionNode? && n.isExtern && |n.body| > 0
  }

  /** Holds of a parameter without a name. */
  predicate ParameterUnnamed(n: Node)
  {
    n.ParameterNode? && n.name.None?
  }

  /** Holds of a modifier other than in, out and ref. */
  predicate ModifierNotInOutRef(n: Node)
  {
    n.ModifierNode? && n.modifier !in ["in", "out", "ref"]
  }

  /** Holds of a class without a name. */
  predicate ClassUnnamed(n: Node)
  {
    n.ClassNode? && n.name.None?
  }

  /** Holds of an if without a condition. */
  predicate IfWithoutCondition(n: Node)
  {
    n.IfNode? && n.condition.None?
  }

  /** Holds of an if without a then branch. */
  predicate IfWithoutThen(n: Node)
  {
    n.IfNode? && n.thenBranch.None?
  }

  /** Holds of a when without a condition. */
  predicate WhenWithoutCondition(n: Node)
  {
    n.WhenNode? && n.condition.None?
  }

  /** Holds of a when with no then expressions. */
  predicate WhenWithoutThen(n: Node)
  {
    n.WhenNode? && |n.thenExprs| == 0
  }

  /** Holds of a match without cases. */
  predicate MatchWithoutCases(n: Node)
  {
    n.MatchNode? && |n.cases| == 0
  }

  // ---- The catalog ----

  const IdentifierHasName: Rule :=
    MakeRule("LL0001", Error, "Identifier must have a name", [IdentifierUnnamed], ["simple-identifier", "composite-identifier"], false)

  const FractionHasZeroDenominator: Rule :=
    MakeRule("LL0002", Error, "Fraction denominator cannot be zero", [ZeroDenominator], ["fraction-number"], false)

  const ImportMustHaveSource: Rule :=
    MakeRule("LL0003", Error, "Import must have a source", [SomeSourceMissing], ["import"], false)

  const ImportHasSymbols: Rule :=
    MakeRule("LL0004", Error, "Import symbol must have a name", [SomeSymbolsMissing], ["import"], false)

  const VariableMustHaveName: Rule :=
    MakeRule("LL0005", Error, "Variable declaration must have a name", [VariableUnnamed], ["variable"], false)

  const ConstantVariableMustHaveInitializer: Rule :=
    MakeRule("LL0006", Error, "Constant variable must have an initializer", [ConstantWithoutValue], ["variable"], false)

  const TryCatchHasEitherCatchOrFinally: Rule :=
    MakeRule("LL0007", Error, "Try-Catch-Finally statement must have either catch or finally block", [NoCatchNoFinally], ["try-catch"], false)

  const OnlyOneDefaultCatchBlockAllowed: Rule :=
    MakeRule("LL0008", Error, "Only one default catch block is allowed", [SeveralDefaultCatches], ["try-catch"], false)

  const InvalidInterfaceMembers: Rule :=
    MakeRule("LL0009", Error, "Invalid interface member", [Always], ["variable", "function"], true)

  const InterfaceMembersCannotHaveInitializers: Rule :=
    MakeRule("LL0010", Error, "Interface members cannot have initializers", [VariableWithValue], ["variable"], false)

  const InterfaceMembersCannotBeExtern: Rule :=
    MakeRule("LL0011", Error, "Interface members cannot be extern", [ExternFunction], ["function"], false)

  const InterfaceMembersCannotHaveBodyDeclarations: Rule :=
    MakeRule("LL0012", Error, "Interface members cannot have body declarations", [FunctionWithBody], ["function"], false)

  const ExternFunctionCannotHaveBody: Rule :=
    MakeRule("LL0013", Error, "Extern function cannot have a body", [ExternWithBody], ["function"], false)

  const FunctionParameterMustHaveName: Rule :=
    MakeRule("LL0014", Error, "Function parameter must have a name", [ParameterUnnamed], ["parameter"], false)

  const FunctionAllowedParameterModifiers: Rule :=
    MakeRule("LL0015", Error, "Function parameter modifier must be 'in', 'out' or 'ref'", [ModifierNotInOutRef], ["modifier"], false)

  const ClassMustHaveName: Rule :=
    MakeRule("LL0016", Error, "Class declaration must have a name", [ClassUnnamed], ["class"], false)

  const IfMustHaveCondition: Rule :=
    MakeRule("LL0017", Error, "If statement must have a condition", [IfWithoutCondition], ["if"], false)

  const IfMustHaveThenClause: Rule :=
    MakeRule("LL0018", Error, "If statement must have a 'then' clause", [IfWithoutThen], ["if"], false)

  const WhenMustHaveCondition: Rule :=
    MakeRule("LL0017", Error, "When statement must have a 'condition' clause", [WhenWithoutCondition], ["when"], false)

  const WhenMustHaveThenClause: Rule :=
    MakeRule("LL0019", Error, "When statement must have a 'then' clause", [WhenWithoutThen], ["when"], false)

  const MatchMustHaveCases: Rule :=
    MakeRule("LL0020", Error, "Match statement must have at least one case", [MatchWithoutCases], ["match"], false)

  const IdentifierMustHaveName: Rule :=
    MakeRule("LL0021", Error, "Identifier must have a name", [IdentifierUnnamed], ["simple-identifier", "composite-identifier"], false)

  /** The catalog in declaration order. */
  const Rules: seq<Rule> := [IdentifierHasName, FractionHasZeroDenominator, ImportMustHaveSource, ImportHasSymbols,
    VariableMustHaveName, ConstantVariableMustHaveInitializer, TryCatchHasEitherCatchOrFinally,
    OnlyOneDefaultCatchBlockAllowed, InvalidInterfaceMembers, InterfaceMembersCannotHaveInitializers,
    InterfaceMembersCannotBeExtern, InterfaceMembersCannotHaveBodyDeclarations, ExternFunctionCannotHaveBody,
    FunctionParameterMustHaveName, FunctionAllowedParameterModifiers, ClassMustHaveName, IfMustHaveCondition,
    IfMustHaveThenClause, WhenMustHaveCondition, WhenMustHaveThenClause, MatchMustHaveCases, IdentifierMustHaveName]

  // ---- The builder chains ----

  /** The chain that declares LL0002 builds exactly the catalog's rule. */
  method BuildFractionRule() returns (r: Rule)
    ensures r == FractionHasZeroDenominator
  {
    var b := new RuleBuilder();
    b := b.AddTypeFilter(["fraction-number"]);
    b := b.AddSeverity(Error);
    b := b.AddCode(CodeText("LL0002"));
    b := b.AddMessage("Fraction denominator cannot be zero");
    b := b.AddTest(ZeroDenominator);
    assert b.tests == [ZeroDenominator];
    r := b.Build();
  }

  /** The chain that declares LL0009 builds exactly the catalog's rule, with the filter inverted. */
  method BuildInvalidMemberRule() returns (r: Rule)
    ensures r == InvalidInterfaceMembers
  {
    var b := new RuleBuilder();
    b := b.AddInvertedTypeFilter(["variable", "function"]);
    b := b.AddSeverity(Error);
    b := b.AddCode(CodeText("LL0009"));
    b := b.AddMessage("Invalid interface member");
    b := b.AddTest(Always);
    assert b.tests == [Always];
    r := b.Build();
  }

  // ---- When each rule fires ----

  lemma IdentifierRulesFire(n: Node)
    ensures IdentifierHasName.test(n) <==> IsIdentifierNode(n) && n.id == ""
    ensures IdentifierMustHaveName.test(n) <==> IsIdentifierNode(n) && n.id == ""
  {
    SingleTestRule(IdentifierUnnamed, ["simple-identifier", "composite-identifier"], false, n);
    TagNamedSimpleIdentifier(Tag(n));
    TagNamedCompositeIdentifier(Tag(n));
  }

  /** LL0002 fires exactly on a fraction whose denominator is 0. */
  lemma FractionRuleFires(n: Node)
    ensures FractionHasZeroDenominator.test(n) <==> n.FractionNumberNode? && n.denominator == 0
  {
    SingleTestRule(ZeroDenominator, ["fraction-number"], false, n);
    TagNamedFractionNumber(Tag(n));
  }

  lemma ImportRulesFire(n: Node)
    ensures ImportMustHaveSource.test(n) <==>
              n.ImportNode? && exists i | 0 <= i < |n.imports| :: SourceMissing(n.imports[i])
    ensures ImportHasSymbols.test(n) <==>
              n.ImportNode? && exists i | 0 <= i < |n.imports| :: n.imports[i].symbols.None?
  {
    SingleTestRule(SomeSourceMissing, ["import"], false, n);
    SingleTestRule(SomeSymbolsMissing, ["import"], false, n);
    TagNamedImport(Tag(n));
  }

  lemma VariableRulesFire(n: Node)
    ensures VariableMustHaveName.test(n) <==> n.VariableNode? && n.name.None?
    ensures ConstantVariableMustHaveInitializer.test(n) <==> n.VariableNode? && !n.mutable && n.value.None?
    ensures InterfaceMembersCannotHaveInitializers.test(n) <==> n.VariableNode? && n.value.Some?
  {
    SingleTestRule(VariableUnnamed, ["variable"], false, n);
    SingleTestRule(ConstantWithoutValue, ["variable"], false, n);
    SingleTestRule(VariableWithValue, ["variable"], false, n);
    TagNamedVariable(Tag(n));
  }

  lemma TryCatchRulesFire(n: Node)
    ensures TryCatchHasEitherCatchOrFinally.test(n) <==> n.TryCatchNode? && |n.catches| == 0 && n.finallyBody.None?
    ensures OnlyOneDefaultCatchBlockAllowed.test(n) <==> n.TryCatchNode? && DefaultCatches(n.catches) > 1
  {
    SingleTestRule(NoCatchNoFinally, ["try-catch"], false, n);
    SingleTestRule(SeveralDefaultCatches, ["try-catch"], false, n);
    TagNamedTryCatch(Tag(n));
  }

  /** LL0009 holds of every node that is neither a variable nor a function. */
  lemma InvalidMemberFires(n: Node)
    ensures InvalidInterfaceMembers.test(n) <==> !n.VariableNode? && !n.FunctionNode?
  {
    SingleTestRule(Always, ["variable", "function"], true, n);
    MemberTyped(n);
  }

  lemma MemberTyped(n: Node)
    ensures TypeOf(n) in ["variable", "function"] <==> n.VariableNode? || n.FunctionNode?
  {
    VariableTyped(n);
    FunctionTyped(n);
  }

  lemma VariableTyped(n: Node)
    ensures TypeOf(n) == "variable" <==> n.VariableNode?
  {
    TagNamedVariable(Tag(n));
  }

  lemma FunctionTyped(n: Node)
    ensures TypeOf(n) == "function" <==> n.FunctionNode?
  {
    TagNamedFunction(Tag(n));
  }

  lemma FunctionRulesFire(n: Node)
    ensures InterfaceMembersCannotBeExtern.test(n) <==> n.FunctionNode? && n.isExtern
    ensures InterfaceMembersCannotHaveBodyDeclarations.test(n) <==> n.FunctionNode? && |n.body| > 0
    ensures ExternFunctionCannotHaveBody.test(n) <==> n.FunctionNode? && n.isExtern && |n.body| > 0
  {
    SingleTestRule(ExternFunction, ["function"], false, n);
    SingleTestRule(FunctionWithBody, ["function"], false, n);
    SingleTestRule(ExternWithBody, ["function"], false, n);
    TagNamedFunction(Tag(n));
  }

  lemma ParameterRuleFires(n: Node)
    ensures FunctionParameterMustHaveName.test(n) <==> n.ParameterNode? && n.name.None?
  {
    SingleTestRule(ParameterUnnamed, ["parameter"], false, n);
    TagNamedParameter(Tag(n));
  }

  /** LL0015 filters on the tag "modifier", which no node has, so it never fires. */
  lemma ModifierRuleNeverFires(n: Node)
    ensures !FunctionAllowedParameterModifiers.test(n)
  {
    SingleTestRule(ModifierNotInOutRef, ["modifier"], false, n);
    NoModifierTag(Tag(n));
  }

  lemma ClassRuleFires(n: Node)
    ensures ClassMustHaveName.test(n) <==> n.ClassNode? && n.name.None?
  {
    SingleTestRule(ClassUnnamed, ["class"], false, n);
    TagNamedClass(Tag(n));
  }

  lemma ConditionalRulesFire(n: Node)
    ensures IfMustHaveCondition.test(n) <==> n.IfNode? && n.condition.None?
    ensures IfMustHaveThenClause.test(n) <==> n.IfNode? && n.thenBranch.None?
    ensures WhenMustHaveCondition.test(n) <==> n.WhenNode? && n.condition.None?
    ensures WhenMustHaveThenClause.test(n) <==> n.WhenNode? && |n.thenExprs| == 0
  {
    SingleTestRule(IfWithoutCondition, ["if"], false, n);
    SingleTestRule(IfWithoutThen, ["if"], false, n);
    SingleTestRule(WhenWithoutCondition, ["when"], false, n);
    SingleTestRule(WhenWithoutThen, ["when"], false, n);
    TagNamedIf(Tag(n));
    TagNamedWhen(Tag(n));
  }

  lemma MatchRuleFires(n: Node)
    ensures MatchMustHaveCases.test(n) <==> n.MatchNode? && |n.cases| == 0
  {
    SingleTestRule(MatchWithoutCases, ["match"], false, n);
    TagNamedMatch(Tag(n));
  }

  /** The if-condition and when-condition rules report the same code. */
  lemma SharedConditionCode()
    ensures IfMustHaveCondition.code == WhenMustHaveCondition.code == "LL0017"
    ensures IfMustHaveCondition.message != WhenMustHaveCondition.message
  {
  }
}
