/**
 * The syntax pass: a tree walk whose handlers check each node against the
 * rules for its kind and append the violations to the compilation's
 * results.
 */
module SyntaxRulesAstVisitor {
  import opened Wrappers
  import opened AstTags
  import opened Ast
  import opened RuleBuilder
  import opened NodeValidationRules
  import V = BaseAstVisitor
  import W = BaseAstTreeWalker

  /** The rules each member of an interface body is checked against, in order. */
  const InterfaceMemberRules: seq<Rule> := [InvalidInterfaceMembers, InterfaceMembersCannotHaveInitializers,
                                            InterfaceMembersCannotBeExtern, InterfaceMembersCannotHaveBodyDeclarations]

  /** The rule a parameter is checked against, and the rule each of its modifiers is checked against. */
  const ParameterRules: seq<Rule> := [FunctionParameterMustHaveName]
  const ParameterModifierRules: seq<Rule> := [FunctionAllowedParameterModifiers]

  /** `(x as ListNode)?.nodes ?? [x]`: a node's `nodes` array when it has a non-null one, else the node itself. */
  function NodesOrSelf(x: Node): (r: seq<Node>)
    ensures x.ListNode? ==> r == x.nodes
    ensures x.QuoteNode? && x.quoted.SomeNodes? ==> r == x.quoted.items
    ensures !x.ListNode? && !(x.QuoteNode? && x.quoted.SomeNodes?) ==> r == [x]
  {
    if x.ListNode? then x.nodes
    else if x.QuoteNode? && x.quoted.SomeNodes? then x.quoted.items
    else [x]
  }

  /** The interface body with each entry replaced by `NodesOrSelf` of it, in order. */
  function FlattenBody(body: seq<Node>): seq<Node>
  {
    if |body| == 0 then [] else NodesOrSelf(body[0]) + FlattenBody(body[1..])
  }

  lemma {:induction false} FlattenBodyAppend(a: seq<Node>, b: seq<Node>)
    ensures FlattenBody(a + b) == FlattenBody(a) + FlattenBody(b)
  {
    if |a| > 0 {
      assert (a + b)[1..] == a[1..] + b;
      FlattenBodyAppend(a[1..], b);
    } else {
      assert a + b == b;
    }
  }

  /** A body without list or quote entries is checked member by member as it stands. */
  lemma {:induction false} FlattenPlainBody(body: seq<Node>)
    requires forall i | 0 <= i < |body| :: !body[i].ListNode? && !body[i].QuoteNode?
    ensures FlattenBody(body) == body
  {
    if |body| > 0 {
      FlattenPlainBody(body[1..]);
    }
  }

  /** The violations of running the same rules on each node in turn. */
  function FiredEach(ns: seq<Node>, rules: seq<Rule>): seq<ValidationMessage>
  {
    if |ns| == 0 then [] else Fired(ns[0], rules) + FiredEach(ns[1..], rules)
  }

  lemma {:induction false} FiredEachAppend(a: seq<Node>, b: seq<Node>, rules: seq<Rule>)
    ensures FiredEach(a + b, rules) == FiredEach(a, rules) + FiredEach(b, rules)
  {
    if |a| > 0 {
      assert (a + b)[1..] == a[1..] + b;
      FiredEachAppend(a[1..], b, rules);
    } else {
      assert a + b == b;
    }
  }

  /** The rules the handlers made of a single `checkRules` call run on their node; `None` for every other handler. */
  function RulesOf(h: V.Handler): Option<seq<Rule>>
  {
    match h
    case VisitFunction => Some([ExternFunctionCannotHaveBody])
    case VisitTryCatch => Some([TryCatchHasEitherCatchOrFinally, OnlyOneDefaultCatchBlockAllowed])
    case VisitVariable => Some([VariableMustHaveName, ConstantVariableMustHaveInitializer])
    case VisitClass => Some([ClassMustHaveName])
    case VisitWhen => Some([WhenMustHaveCondition, WhenMustHaveThenClause])
    case VisitIf => Some([IfMustHaveCondition, IfMustHaveThenClause])
    case VisitMatch => Some([MatchMustHaveCases])
    case VisitIdentifier => Some([IdentifierMustHaveName])
    case VisitImport => Some([ImportMustHaveSource])
    case VisitNumber => Some([FractionHasZeroDenominator])
    case _ => Option.None
  }

  /** A parameter checked with `nameRules`, then each of its modifiers checked separately with `modifierRules`. */
  function ParameterDiagnostics(n: Node, nameRules: seq<Rule>, modifierRules: seq<Rule>): seq<ValidationMessage>
  {
    Fired(n, nameRules) + FiredEach(if n.ParameterNode? then n.modifiers else [], modifierRules)
  }

  lemma ParameterDiagnosticsSplit(n: Node, start: seq<ValidationMessage>, end: seq<ValidationMessage>,
                                  nameRules: seq<Rule>, modifierRules: seq<Rule>)
    requires end == start + Fired(n, nameRules) + FiredEach(if n.ParameterNode? then n.modifiers else [], modifierRules)
    ensures end == start + ParameterDiagnostics(n, nameRules, modifierRules)
  {
  }

  /** Every member of the flattened interface body checked in turn. */
  function InterfaceDiagnostics(n: Node): seq<ValidationMessage>
  {
    FiredEach(FlattenBody(if n.InterfaceNode? then n.body else []), InterfaceMemberRules)
  }

  /** What each handler this visitor overrides reports for a node (the two comment handlers have empty bodies); `None` for the handlers it inherits. */
  function HandlerDiagnostics(h: V.Handler, n: Node): Option<seq<ValidationMessage>>
  {
    if h == V.VisitFunctionParameter then Some(ParameterDiagnostics(n, ParameterRules, ParameterModifierRules))
    else if h == V.VisitInterface then Some(InterfaceDiagnostics(n))
    else if h == V.VisitComment || h == V.VisitControlComment then Some([])
    else if RulesOf(h).Some? then Some(Fired(n, RulesOf(h).value))
    else Option.None
  }

  /** What visiting one node leaves in the context: a diagnostic or a log entry. */
  datatype Event = Diagnostic(message: ValidationMessage) | Logged(entry: V.LogEntry)

  function AsDiagnostics(ms: seq<ValidationMessage>): (r: seq<Event>)
    ensures |r| == |ms| && forall i | 0 <= i < |r| :: r[i] == Diagnostic(ms[i])
  {
    if |ms| == 0 then [] else [Diagnostic(ms[0])] + AsDiagnostics(ms[1..])
  }

  /** The events of a node once the dispatch table has routed it. */
  function RoutedEvents(route: Option<V.Handler>, n: Node): seq<Event>
  {
    match route
    case None => [Logged(V.NoVisitorError(n))]
    case Some(h) =>
      match HandlerDiagnostics(h, n)
      case Some(ms) => AsDiagnostics(ms)
      case None => [Logged(V.Skipped<()>(h, n).log[0])]
  }

  /** The base `visit` of one node with this visitor's handlers. */
  function NodeEvents(n: Node): seq<Event>
  {
    RoutedEvents(V.Route(Tag(n)), n)
  }

  // ---- Which rules run on which nodes ----

  /** A node whose tag the table routes to `h` produces what `RoutedEvents` gives for `h`. */
  lemma RoutedTo(n: Node, t: NodeType, h: V.Handler)
    requires Tag(n) == t && V.Route(t) == Some(h)
    ensures NodeEvents(n) == RoutedEvents(Some(h), n)
  {
  }

  /** A node whose tag the table routes to `h` produces the diagnostics of `h`. */
  lemma Routed(n: Node, t: NodeType, h: V.Handler, ms: seq<ValidationMessage>)
    requires Tag(n) == t && V.Route(t) == Some(h) && HandlerDiagnostics(h, n) == Some(ms)
    ensures NodeEvents(n) == AsDiagnostics(ms)
  {
  }

  /** A handler made of one `checkRules` call produces that call's violations. */
  lemma RulesRouted(n: Node, t: NodeType, h: V.Handler, rules: seq<Rule>)
    requires Tag(n) == t && V.Route(t) == Some(h)
    requires h != V.VisitFunctionParameter && h != V.VisitInterface
    requires h != V.VisitComment && h != V.VisitControlComment && RulesOf(h) == Some(rules)
    ensures NodeEvents(n) == AsDiagnostics(Fired(n, rules))
  {
    assert HandlerDiagnostics(h, n) == Some(Fired(n, rules));
    RoutedTo(n, t, h);
  }

  /** A try-catch is checked against LL0007 and then LL0008. */
  lemma TryCatchChecks(n: Node)
    requires n.TryCatchNode?
    ensures NodeEvents(n) == AsDiagnostics(Fired(n, [TryCatchHasEitherCatchOrFinally, OnlyOneDefaultCatchBlockAllowed]))
  {
    TryCatchRouted(n);
    RulesRouted(n, TryCatch, V.VisitTryCatch, [TryCatchHasEitherCatchOrFinally, OnlyOneDefaultCatchBlockAllowed]);
  }

  /** A variable is checked against LL0005 and then LL0006. */
  lemma VariableChecks(n: Node)
    requires n.VariableNode?
    ensures NodeEvents(n) == AsDiagnostics(Fired(n, [VariableMustHaveName, ConstantVariableMustHaveInitializer]))
  {
    VariableRouted(n);
    RulesRouted(n, Variable, V.VisitVariable, [VariableMustHaveName, ConstantVariableMustHaveInitializer]);
  }

  /** A function is checked only against LL0013. */
  lemma FunctionChecks(n: Node)
    requires n.FunctionNode?
    ensures NodeEvents(n) == AsDiagnostics(Fired(n, [ExternFunctionCannotHaveBody]))
  {
    FunctionRouted(n);
    RulesRouted(n, Function, V.VisitFunction, [ExternFunctionCannotHaveBody]);
  }

  /** Each flattened interface member is checked against LL0009 to LL0012, member by member. */
  lemma InterfaceChecks(n: Node)
    requires n.InterfaceNode?
    ensures NodeEvents(n) == AsDiagnostics(FiredEach(FlattenBody(n.body), InterfaceMemberRules))
  {
    InterfaceRouted(n);
    Routed(n, Interface, V.VisitInterface, InterfaceDiagnostics(n));
  }

  /** A parameter is checked for its name; its modifiers are checked one by one, but that rule never reports. */
  lemma ParameterChecks(n: Node)
    requires n.ParameterNode?
    ensures NodeEvents(n) == AsDiagnostics(Fired(n, ParameterRules))
  {
    ParameterRouted(n);
    ModifiersNeverReported(n.modifiers);
    assert Fired(n, ParameterRules) + [] == Fired(n, ParameterRules);
    Routed(n, Parameter, V.VisitFunctionParameter, Fired(n, ParameterRules));
  }

  lemma {:induction false} ModifiersNeverReported(ms: seq<Node>)
    ensures FiredEach(ms, ParameterModifierRules) == []
  {
    if |ms| > 0 {
      ModifierRuleNeverFires(ms[0]);
      ModifiersNeverReported(ms[1..]);
    }
  }

  /** A class is checked only with LL0016. */
  lemma ClassChecks(n: Node)
    requires n.ClassNode?
    ensures NodeEvents(n) == AsDiagnostics(Fired(n, [ClassMustHaveName]))
  {
    ClassRouted(n);
    RulesRouted(n, Class, V.VisitClass, [ClassMustHaveName]);
  }

  /** A match is checked only with LL0020. */
  lemma MatchChecks(n: Node)
    requires n.MatchNode?
    ensures NodeEvents(n) == AsDiagnostics(Fired(n, [MatchMustHaveCases]))
  {
    MatchRouted(n);
    RulesRouted(n, Match, V.VisitMatch, [MatchMustHaveCases]);
  }

  /** A `when` is checked for its condition, then for its then-part. */
  lemma WhenChecks(n: Node)
    requires n.WhenNode?
    ensures NodeEvents(n) == AsDiagnostics(Fired(n, [WhenMustHaveCondition, WhenMustHaveThenClause]))
  {
    WhenRouted(n);
    RulesRouted(n, When, V.VisitWhen, [WhenMustHaveCondition, WhenMustHaveThenClause]);
  }

  /** An `if` is checked for its condition, then for its then-branch. */
  lemma IfChecks(n: Node)
    requires n.IfNode?
    ensures NodeEvents(n) == AsDiagnostics(Fired(n, [IfMustHaveCondition, IfMustHaveThenClause]))
  {
    IfRouted(n);
    RulesRouted(n, If, V.VisitIf, [IfMustHaveCondition, IfMustHaveThenClause]);
  }

  /** A simple identifier is checked only with LL0021. */
  lemma SimpleIdentifierChecks(n: Node)
    requires n.SimpleIdentifierNode?
    ensures NodeEvents(n) == AsDiagnostics(Fired(n, [IdentifierMustHaveName]))
  {
    SimpleIdentifierRouted(n);
    RulesRouted(n, SimpleIdentifier, V.VisitIdentifier, [IdentifierMustHaveName]);
  }

  /** A composite identifier is checked only with LL0021 as well. */
  lemma CompositeIdentifierChecks(n: Node)
    requires n.CompositeIdentifierNode?
    ensures NodeEvents(n) == AsDiagnostics(Fired(n, [IdentifierMustHaveName]))
  {
    CompositeIdentifierRouted(n);
    RulesRouted(n, CompositeIdentifier, V.VisitIdentifier, [IdentifierMustHaveName]);
  }

  /** An import is checked only with LL0003. */
  lemma ImportChecks(n: Node)
    requires n.ImportNode?
    ensures NodeEvents(n) == AsDiagnostics(Fired(n, [ImportMustHaveSource]))
  {
    ImportRouted(n);
    RulesRouted(n, Import, V.VisitImport, [ImportMustHaveSource]);
  }

  /** An integer or a float is checked with the fraction rule, which only a fraction can break. */
  lemma NumberChecks(n: Node)
    requires n.NumberNode? || n.FloatNumberNode?
    ensures NodeEvents(n) == []
  {
    NumberRouted(n);
    FractionRuleSilent(n);
    RulesRouted(n, Tag(n), V.VisitNumber, [FractionHasZeroDenominator]);
  }

  lemma FractionRuleSilent(n: Node)
    requires n.NumberNode? || n.FloatNumberNode?
    ensures Fired(n, [FractionHasZeroDenominator]) == []
  {
    FractionRuleFires(n);
  }

  lemma NumberRouted(n: Node)
    requires n.NumberNode? || n.FloatNumberNode?
    ensures V.Route(Tag(n)) == Some(V.VisitNumber)
  {
    if n.FloatNumberNode? {
      assert Tag(n) == FloatNumber;
    } else if n.radix.Decimal? {
      assert Tag(n) == IntegerNumber;
    } else if n.radix.Hex? {
      assert Tag(n) == HexNumber;
    } else if n.radix.Binary? {
      assert Tag(n) == BinaryNumber;
    } else {
      assert Tag(n) == OctalNumber;
    }
  }

  /** A fraction has no table entry, so the visit only logs the missing handler: LL0002 is never reported. */
  lemma FractionNotChecked(n: Node)
    requires n.FractionNumberNode?
    ensures NodeEvents(n) == [Logged(V.NoVisitorError(n))]
  {
    assert Tag(n) == FractionNumber;
    assert V.Route(FractionNumber) == Option.None;
  }

  // ---- Where the dispatch table sends each checked node ----

  lemma TryCatchRouted(n: Node)
    requires n.TryCatchNode?
    ensures Tag(n) == TryCatch && V.Route(TryCatch) == Some(V.VisitTryCatch) && RulesOf(V.VisitTryCatch) == Some([TryCatchHasEitherCatchOrFinally, OnlyOneDefaultCatchBlockAllowed])
  {
  }

  lemma VariableRouted(n: Node)
    requires n.VariableNode?
    ensures Tag(n) == Variable && V.Route(Variable) == Some(V.VisitVariable) && RulesOf(V.VisitVariable) == Some([VariableMustHaveName, ConstantVariableMustHaveInitializer])
  {
  }

  lemma FunctionRouted(n: Node)
    requires n.FunctionNode?
    ensures Tag(n) == Function && V.Route(Function) == Some(V.VisitFunction) && RulesOf(V.VisitFunction) == Some([ExternFunctionCannotHaveBody])
  {
  }

  lemma ClassRouted(n: Node)
    requires n.ClassNode?
    ensures Tag(n) == Class && V.Route(Class) == Some(V.VisitClass) && RulesOf(V.VisitClass) == Some([ClassMustHaveName])
  {
  }

  lemma MatchRouted(n: Node)
    requires n.MatchNode?
    ensures Tag(n) == Match && V.Route(Match) == Some(V.VisitMatch) && RulesOf(V.VisitMatch) == Some([MatchMustHaveCases])
  {
  }

  lemma WhenRouted(n: Node)
    requires n.WhenNode?
    ensures Tag(n) == When && V.Route(When) == Some(V.VisitWhen) && RulesOf(V.VisitWhen) == Some([WhenMustHaveCondition, WhenMustHaveThenClause])
  {
  }

  lemma IfRouted(n: Node)
    requires n.IfNode?
    ensures Tag(n) == If && V.Route(If) == Some(V.VisitIf) && RulesOf(V.VisitIf) == Some([IfMustHaveCondition, IfMustHaveThenClause])
  {
  }

  lemma SimpleIdentifierRouted(n: Node)
    requires n.SimpleIdentifierNode?
    ensures Tag(n) == SimpleIdentifier && V.Route(SimpleIdentifier) == Some(V.VisitIdentifier) && RulesOf(V.VisitIdentifier) == Some([IdentifierMustHaveName])
  {
  }

  lemma CompositeIdentifierRouted(n: Node)
    requires n.CompositeIdentifierNode?
    ensures Tag(n) == CompositeIdentifier && V.Route(CompositeIdentifier) == Some(V.VisitIdentifier) && RulesOf(V.VisitIdentifier) == Some([IdentifierMustHaveName])
  {
  }

  lemma ImportRouted(n: Node)
    requires n.ImportNode?
    ensures Tag(n) == Import && V.Route(Import) == Some(V.VisitImport) && RulesOf(V.VisitImport) == Some([ImportMustHaveSource])
  {
  }

  lemma InterfaceRouted(n: Node)
    requires n.InterfaceNode?
    ensures Tag(n) == Interface && V.Route(Interface) == Some(V.VisitInterface)
    ensures HandlerDiagnostics(V.VisitInterface, n) == Some(InterfaceDiagnostics(n))
  {
  }

  lemma ParameterRouted(n: Node)
    requires n.ParameterNode?
    ensures Tag(n) == Parameter && V.Route(Parameter) == Some(V.VisitFunctionParameter)
    ensures HandlerDiagnostics(V.VisitFunctionParameter, n) == Some(ParameterDiagnostics(n, ParameterRules, ParameterModifierRules))
  {
  }

  /** The two comment handlers have empty bodies. */
  lemma QuietHandler(h: V.Handler, n: Node)
    requires h == V.VisitComment || h == V.VisitControlComment
    ensures HandlerDiagnostics(h, n) == Some([])
  {
  }

  lemma CommentRouted(n: Node)
    requires n.CommentNode?
    ensures Tag(n) == Comment && V.Route(Comment) == Some(V.VisitComment)
  {
  }

  lemma ControlCommentRouted(n: Node)
    requires n.ControlCommentNode?
    ensures Tag(n) == ControlComment && V.Route(ControlComment) == Some(V.VisitControlComment)
  {
  }

  /** A comment produces nothing. */
  lemma CommentChecks(n: Node)
    requires n.CommentNode?
    ensures NodeEvents(n) == []
  {
    CommentRouted(n);
    QuietHandler(V.VisitComment, n);
    Routed(n, Comment, V.VisitComment, []);
  }

  /** A control comment produces nothing. */
  lemma ControlCommentChecks(n: Node)
    requires n.ControlCommentNode?
    ensures NodeEvents(n) == []
  {
    ControlCommentRouted(n);
    QuietHandler(V.VisitControlComment, n);
    Routed(n, ControlComment, V.VisitControlComment, []);
  }

  /** An assignment is not checked: its inherited handler logs that it was skipped. */
  lemma AssignmentSkipped(loc: Location, target: Node, value: Node)
    ensures NodeEvents(AssignmentNode(loc, target, value)) ==
            [Logged(V.LogEntry(V.Info, "Method visitAssignment skipped"))]
  {
    var n := AssignmentNode(loc, target, value);
    AssignmentRouted(n);
    AssignmentSkipEntry(n);
    Inherited(n, Assignment, V.VisitAssignment);
  }

  /** The text step of `AssignmentSkipped`, kept apart so that proof does not spell out the literal. */
  lemma AssignmentSkipEntry(n: Node)
    ensures V.Skipped<()>(V.VisitAssignment, n).log == [V.LogEntry(V.Info, "Method visitAssignment skipped")]
  {
    assert V.HandlerName(V.VisitAssignment) == "visitAssignment";
    assert "Method " + "visitAssignment" + " skipped" == "Method visitAssignment skipped";
  }

  lemma AssignmentRouted(n: Node)
    requires n.AssignmentNode?
    ensures Tag(n) == Assignment && V.Route(Assignment) == Some(V.VisitAssignment)
    ensures HandlerDiagnostics(V.VisitAssignment, n) == Option.None
  {
  }

  /** A node routed to a handler this visitor inherits produces the one entry the skipped handler logs. */
  lemma Inherited(n: Node, t: NodeType, h: V.Handler)
    requires Tag(n) == t && V.Route(t) == Some(h) && HandlerDiagnostics(h, n) == Option.None
    ensures NodeEvents(n) == [Logged(V.Skipped<()>(h, n).log[0])]
  {
  }

  /** A `forEach` calling `checkRules` with the same rules on each node in turn. */
  method CheckEach(ns: seq<Node>, rules: seq<Rule>, results: RuleValidationResultsCollection)
    modifies results
    ensures results.collection == old(results.collection) + FiredEach(ns, rules)
  {
    for i := 0 to |ns|
      invariant results.collection == old(results.collection) + FiredEach(ns[..i], rules)
    {
      var _ := CheckRules(ns[i], rules, results);
      FiredEachStep(ns, i, rules);
      AppendAssociates(old(results.collection), FiredEach(ns[..i], rules), Fired(ns[i], rules));
    }
    assert ns[..|ns|] == ns;
  }

  lemma AppendAssociates<T>(a: seq<T>, b: seq<T>, c: seq<T>)
    ensures (a + b) + c == a + (b + c)
  {
  }

  lemma FiredEachStep(ns: seq<Node>, i: nat, rules: seq<Rule>)
    requires i < |ns|
    ensures FiredEach(ns[..i + 1], rules) == FiredEach(ns[..i], rules) + Fired(ns[i], rules)
  {
    assert ns[..i + 1] == ns[..i] + [ns[i]];
    FiredEachAppend(ns[..i], [ns[i]], rules);
    assert FiredEach([ns[i]], rules) == Fired(ns[i], rules) + FiredEach([], rules);
  }

  /** The pass's handlers, appending to the compilation's results collection. */
  class SyntaxRulesVisitor {
    const results: RuleValidationResultsCollection

    constructor(results: RuleValidationResultsCollection)
      ensures this.results == results
    {
      this.results := results;
    }

    /** `visitFunctionParameter`: the name check, then one `checkRules` per modifier. */
    method VisitFunctionParameter(n: Node)
      modifies results
      ensures results.collection == old(results.collection) + Fired(n, ParameterRules) +
                                    FiredEach(if n.ParameterNode? then n.modifiers else [], ParameterModifierRules)
    {
      var _ := CheckRules(n, ParameterRules, results);
      CheckEach(if n.ParameterNode? then n.modifiers else [], ParameterModifierRules, results);
    }

    /** `visitInterface`: one `checkRules` per member of the flattened body. */
    method VisitInterface(n: Node)
      modifies results
      ensures results.collection == old(results.collection) + InterfaceDiagnostics(n)
    {
      CheckEach(FlattenBody(if n.InterfaceNode? then n.body else []), InterfaceMemberRules, results);
    }

    /** The handler `h` of this visitor on `n`: appends exactly what `HandlerDiagnostics` says; inherited handlers append nothing. */
    method Handle(h: V.Handler, n: Node)
      modifies results
      ensures HandlerDiagnostics(h, n).Some? ==>
                results.collection == old(results.collection) + HandlerDiagnostics(h, n).value
      ensures HandlerDiagnostics(h, n).None? ==> results.collection == old(results.collection)
    {
      if h == V.VisitFunctionParameter {
        ghost var start := results.collection;
        VisitFunctionParameter(n);
        ParameterDiagnosticsSplit(n, start, results.collection, ParameterRules, ParameterModifierRules);
      } else if h == V.VisitInterface {
        VisitInterface(n);
      } else if h == V.VisitComment || h == V.VisitControlComment {
      } else {
        CheckHandlerRules(h, n);
      }
    }

    /** The handlers made of one `checkRules` call on their node. */
    method CheckHandlerRules(h: V.Handler, n: Node)
      requires h != V.VisitFunctionParameter && h != V.VisitInterface
      requires h != V.VisitComment && h != V.VisitControlComment
      modifies results
      ensures HandlerDiagnostics(h, n).Some? ==>
                results.collection == old(results.collection) + HandlerDiagnostics(h, n).value
      ensures HandlerDiagnostics(h, n).None? ==> results.collection == old(results.collection)
    {
      var rules := RulesOf(h);
      if rules.Some? {
        var _ := CheckRules(n, rules.value, results);
      }
    }
  }

  /** The whole pass over a tree: every node's events, in pre-order. */
  method RunSyntaxRules(root: Node) returns (events: seq<Event>)
    ensures W.Ranked(Children)
    ensures events == W.Effects(NodeEvents, W.PreOrder(Children, root))
  {
    W.AstChildrenRanked();
    var walker := new W.TreeWalker(Children, NodeEvents);
    walker.Visit(root);
    events := walker.output;
  }
}
