/**
 * The string-emitting compiler pass: a visitor whose handlers turn each node
 * into JavaScript text. It keeps a stack of emission scopes, a memo of encoded
 * identifiers, the names of the functions, classes and variables emitted so
 * far, and a counter for fresh temporaries. Class nodes are lowered by a
 * separate builder that pushes and pops the visitor's scopes around each part.
 */
module JsCompiler {
  import opened Wrappers
  import opened Text
  import opened AstTags
  import opened Ast
  import opened SymbolTable
  import opened JsCompilerEmit
  import opened ClassLowering
  import Utils
  import V = BaseAstVisitor

  /** What a visit gives: a value, an exception that ends the compilation, or a handler this model does not follow. */
  datatype Compiled = Value(value: JsValue) | Thrown(message: string) | Unmodelled(handler: V.Handler)

  /** The visits of a list of nodes: all their values, or the first visit that gave none. */
  datatype Visited = Values(values: seq<JsValue>) | Stopped(reason: Compiled)

  /** An exception raised by a formatter ends the visit. */
  function Lifted(f: Result<string>): Compiled
  {
    match f
    case Success(s) => Value(Str(s))
    case Failure(e) => Thrown(e)
  }

  /** The handlers the compiler defines; the others keep the base class's no-op. */
  predicate Overrides(h: V.Handler)
  {
    match h
    case VisitTypeMapping | VisitFieldModifier | VisitParameterModifier | VisitFunctionCarryingLeft
       | VisitFunctionCarryingRight | VisitAccessModifier | VisitConstraintImplements
       | VisitConstraintInherits | VisitConstraintIs | VisitConstraintHas => false
    case _ => true
  }

  /** The dispatch table sends the node to a handler the compiler defines. */
  predicate Handled(n: Node)
  {
    V.Route(Tag(n)).Some? && Overrides(V.Route(Tag(n)).value)
  }

  /** The nodes the compiler leaves to the base class's no-op or to the table's missing entries. */
  predicate Passive(n: Node)
  {
    n.ModifierNode? || n.CarryingStepNode? || n.FractionNumberNode?
    || (n.OpaqueNode? && !n.tag.Implements? && !n.tag.Extends?)
  }

  /** The tags of the table's missing entries and of the handlers the compiler keeps as no-ops. */
  predicate UnhandledTag(t: NodeType)
  {
    match t
    case Type | TypeDef | MapKeyType | FunctionType | FunctionModifier | For | ForEach | While | Indexer
       | CompoundAssignment | FractionNumber | TypeMapping | FieldModifier | ParameterModifier
       | FunctionCarryingLeft | FunctionCarryingRight | AccessModifier | ConstraintImplements
       | ConstraintInherits | ConstraintIs | ConstraintHas => true
    case _ => false
  }

  /** Exactly these tags reach no handler of the compiler's own. */
  lemma UnhandledTags(t: NodeType)
    ensures !(V.Route(t).Some? && Overrides(V.Route(t).value)) <==> UnhandledTag(t)
  {
    var b := TagBlock(t);
    if b == 0 {
      UnhandledTagsIn0(t);
    } else if b == 1 {
      UnhandledTagsIn1(t);
    } else if b == 2 {
      UnhandledTagsIn2(t);
    } else if b == 3 {
      UnhandledTagsIn3(t);
    } else if b == 4 {
      UnhandledTagsIn4(t);
    } else if b == 5 {
      UnhandledTagsIn5(t);
    } else {
      UnhandledTagsIn6(t);
    }
  }

  lemma UnhandledTagsIn0(t: NodeType)
    requires TagBlock(t) == 0
    ensures !(V.Route(t).Some? && Overrides(V.Route(t).value)) <==> UnhandledTag(t)
  {
  }

  lemma UnhandledTagsIn1(t: NodeType)
    requires TagBlock(t) == 1
    ensures !(V.Route(t).Some? && Overrides(V.Route(t).value)) <==> UnhandledTag(t)
  {
  }

  lemma UnhandledTagsIn2(t: NodeType)
    requires TagBlock(t) == 2
    ensures !(V.Route(t).Some? && Overrides(V.Route(t).value)) <==> UnhandledTag(t)
  {
  }

  lemma UnhandledTagsIn3(t: NodeType)
    requires TagBlock(t) == 3
    ensures !(V.Route(t).Some? && Overrides(V.Route(t).value)) <==> UnhandledTag(t)
  {
  }

  lemma UnhandledTagsIn4(t: NodeType)
    requires TagBlock(t) == 4
    ensures !(V.Route(t).Some? && Overrides(V.Route(t).value)) <==> UnhandledTag(t)
  {
  }

  lemma UnhandledTagsIn5(t: NodeType)
    requires TagBlock(t) == 5
    ensures !(V.Route(t).Some? && Overrides(V.Route(t).value)) <==> UnhandledTag(t)
  {
  }

  lemma UnhandledTagsIn6(t: NodeType)
    requires TagBlock(t) == 6
    ensures !(V.Route(t).Some? && Overrides(V.Route(t).value)) <==> UnhandledTag(t)
  {
  }

  /** Exactly the passive nodes miss a handler of the compiler's own. */
  lemma PassiveUnhandled(n: Node)
    ensures !Handled(n) <==> Passive(n)
  {
    UnhandledTags(Tag(n));
    if n.ModifierNode? {
      assert n.kind.AccessKind? || n.kind.FieldKind? || n.kind.ParameterKind?;
    } else if n.OpaqueNode? {
      assert IsOpaqueTag(n.tag);
    }
  }

  /** What visiting an optional name gives: nothing for no name, the encoded id for an identifier. */
  function VisitedName(name: Option<Node>, reserved: set<string>): JsValue
  {
    if name.Some? && IsIdentifierNode(name.value) then Str(Utils.EncodeIdentifier(name.value.id, reserved))
    else Undefined
  }

  /** The visits whose result is fixed by the node alone: identifiers, type names and parameters. */
  function NameCode(n: Node, reserved: set<string>): Option<JsValue>
  {
    if IsIdentifierNode(n) then Some(Str(Utils.EncodeIdentifier(n.id, reserved)))
    else if n.TypeNameNode? then Some(Str(n.typeName))
    else if n.ParameterNode? && (n.name.None? || IsIdentifierNode(n.name.value)) then Some(VisitedName(n.name, reserved))
    else None
  }

  /**
   * What the handlers for literals, comments, the wildcard pattern and the module forms give:
   * a string in double quotes, a number in its radix, a float as rendered, a comment in
   * block-comment markers, a control comment after "//", "_", and undefined for import and export.
   */
  function LeafCode(n: Node): Option<JsValue>
  {
    match n
    case StringNode(_, text) => Some(Str(StringCode(text)))
    case NumberNode(_, radix, number) => Some(Str(NumberCode(radix, number)))
    case FloatNumberNode(_, rendered) => Some(Str(rendered))
    case CommentNode(_, comment) => Some(Str("/* " + comment + " */"))
    case ControlCommentNode(_, mode, command, options) => Some(Str("// " + mode + command + " " + Join(options, " ")))
    case AnyPatternNode(_) => Some(Str("_"))
    case ImportNode(_, _) => Some(Undefined)
    case ExportNode(_, _) => Some(Undefined)
    case _ => None
  }

  /** The leaf results come from handlers the compiler defines itself, and never clash with a name result. */
  lemma LeafCodeHandled(n: Node, reserved: set<string>)
    ensures LeafCode(n).Some? ==> Handled(n) && NameCode(n, reserved).None?
    ensures LeafCode(n).Some? <==>
              n.StringNode? || n.NumberNode? || n.FloatNumberNode? || n.CommentNode? || n.ControlCommentNode?
              || n.AnyPatternNode? || n.ImportNode? || n.ExportNode?
  {
    if LeafCode(n).Some? {
      var t := Tag(n);
      assert t in {String, IntegerNumber, HexNumber, BinaryNumber, OctalNumber, FloatNumber, Comment,
                   ControlComment, AnyPattern, Import, Export};
      UnhandledTags(t);
    }
  }

  /** What visiting an optional node gives when the node alone fixes it; no node gives undefined. */
  function OptionCode(a: Option<Node>, reserved: set<string>): Option<JsValue>
  {
    if a.None? then Some(Undefined) else NameCode(a.value, reserved)
  }

  /** The patterns of a match's cases, in order. */
  function CasePatterns(cases: seq<Node>): (r: seq<Node>)
    requires forall i | 0 <= i < |cases| :: cases[i].MatchCaseNode?
    ensures |r| == |cases| && forall i | 0 <= i < |cases| :: r[i] == cases[i].pattern
  {
    if |cases| == 0 then [] else [cases[0].pattern] + CasePatterns(cases[1..])
  }

  /** Every case of a match is a case node whose pattern is a pattern. */
  predicate CasesArePatterns(cases: seq<Node>)
  {
    forall i | 0 <= i < |cases| :: cases[i].MatchCaseNode? && IsPattern(cases[i].pattern)
  }

  lemma ChildrenWellFormed(n: Tree)
    ensures forall c | c in Children(n) :: WellFormed(c)
  {
  }

  lemma MatchPatterns(n: Tree)
    requires n.MatchNode?
    ensures CasesArePatterns(n.cases)
  {
    MatchShape(n);
    forall i | 0 <= i < |n.cases|
      ensures n.cases[i].MatchCaseNode? && IsPattern(n.cases[i].pattern)
    {
      var c := n.cases[i];
      assert Children(n)[1 + i] == c;
      assert WellFormed(Children(n)[1 + i]);
      assert Children(c) == [c.pattern, c.caseBody];
      assert WellFormed(Children(c)[0]);
      WellFormedPattern(c.pattern);
    }
  }

  /** Every node in `ns` lies below `parent`. */
  ghost predicate Below(ns: seq<Node>, parent: Node)
  {
    forall i | 0 <= i < |ns| :: ns[i] < parent
  }

  /** Programs, lists, quotes and vectors. */
  predicate IsSequenceNode(n: Node)
  {
    n.ProgramNode?
    || n.ListNode?
    || n.QuoteNode?
    || n.VectorNode?
  }

  /** Maps, their entries and the module forms. */
  predicate IsMappingNode(n: Node)
  {
    n.MapNode?
    || n.KeyValueNode?
    || n.ImportNode?
    || n.ExportNode?
  }

  /** Named, union, intersection and simple types. */
  predicate IsNamedTypeNode(n: Node)
  {
    n.TypeNameNode?
    || n.UnionTypeNode?
    || n.IntersectionTypeNode?
    || n.SimpleTypeNode?
  }

  /** Generic, map and mapped types. */
  predicate IsComposedTypeNode(n: Node)
  {
    n.GenericTypeNode?
    || n.MapTypeNode?
    || n.MappedTypeNode?
  }

  /** Variables and modifiers. */
  predicate IsVariableNode(n: Node)
  {
    n.VariableNode?
    || n.ModifierNode?
  }

  /** Functions and their parameters. */
  predicate IsFunctionForm(n: Node)
  {
    n.FunctionNode?
    || n.ParameterNode?
  }

  /** Carrying chains, classes and interfaces. */
  predicate IsTypeDefinitionNode(n: Node)
  {
    n.FunctionCarryingNode?
    || n.CarryingStepNode?
    || n.ClassNode?
    || n.InterfaceNode?
  }

  /** Try, await, assignment and when forms. */
  predicate IsStatementNode(n: Node)
  {
    n.TryCatchNode?
    || n.AwaitNode?
    || n.AssignmentNode?
    || n.WhenNode?
  }

  /** Conditionals, matches and match cases. */
  predicate IsBranchNode(n: Node)
  {
    n.IfNode?
    || n.MatchNode?
    || n.MatchCaseNode?
  }

  /** Wildcard, list, vector and map patterns. */
  predicate IsStructuredPattern(n: Node)
  {
    n.AnyPatternNode?
    || n.ListPatternNode?
    || n.VectorPatternNode?
    || n.MapPatternNode?
  }

  /** Map pattern pairs, identifier and constant patterns. */
  predicate IsSimplePattern(n: Node)
  {
    n.MapPatternPairNode?
    || n.IdentifierPatternNode?
    || n.ConstantPatternNode?
  }

  /** Strings, numbers, identifiers, comments and the opaque nodes: the nodes of no group above. */
  predicate NotGrouped(n: Node)
  {
    !IsSequenceNode(n)
    && !IsMappingNode(n)
    && !IsNamedTypeNode(n)
    && !IsComposedTypeNode(n)
    && !IsVariableNode(n)
    && !IsFunctionForm(n)
    && !IsTypeDefinitionNode(n)
    && !IsStatementNode(n)
    && !IsBranchNode(n)
    && !IsStructuredPattern(n)
    && !IsSimplePattern(n)
  }

  /** The step read off a carrying step node: its operator, its member flag and one argument per argument node. */
  predicate StepOf(s: Step, item: Node)
  {
    item.CarryingStepNode? && s.operator == item.operator && s.member == item.memberFunction
    && |s.args| == |item.args|
  }

  /** A step that matches the next item extends a matching prefix of the chain. */
  lemma StepsExtend(done: seq<Step>, items: seq<Node>, s: Step)
    requires |done| < |items| && StepOf(s, items[|done|])
    requires forall j | 0 <= j < |done| :: StepOf(done[j], items[j])
    ensures forall j | 0 <= j < |done| + 1 :: StepOf((done + [s])[j], items[j])
  {
  }

  class JSCompiler {
    /** The emission scopes, innermost first. */
    var scope: seq<ScopeType>
    var functions: seq<JsValue>
    var classes: seq<JsValue>
    var variables: seq<JsValue>
    /** The memo of `visitIdentifier`: source id to emitted name. */
    var identifiers: map<string, string>
    /** How many fresh temporaries were drawn. */
    var temps: nat
    /** The reserved words of the identifier encoding. */
    const reserved: set<string>
    /** The fresh temporary names, in drawing order. */
    const temporary: nat -> string

    ghost predicate Valid()
      reads this
    {
      |scope| >= 1
      && forall k | k in identifiers :: identifiers[k] == Utils.EncodeIdentifier(k, reserved)
    }

    /** The compiler starts in program scope with empty tables. */
    constructor(reserved: set<string>, temporary: nat -> string)
      ensures Valid() && this.reserved == reserved && this.temporary == temporary
      ensures scope == [ProgramScope] && functions == [] && classes == [] && variables == []
      ensures identifiers == map[] && temps == 0
    {
      this.reserved := reserved;
      this.temporary := temporary;
      scope := [ProgramScope];
      functions := [];
      classes := [];
      variables := [];
      identifiers := map[];
      temps := 0;
    }

    /** `currentScope`: the innermost scope, nothing on an empty stack. */
    function CurrentScope(): (r: Option<ScopeType>)
      reads this
      ensures r.Some? <==> |scope| > 0
      ensures r.Some? ==> r.value == scope[0]
    {
      if |scope| == 0 then None else Some(scope[0])
    }

    /** `inScope`: the innermost scope is one of `kinds`. */
    predicate InScope(kinds: set<ScopeType>)
      reads this
    {
      CurrentScope().Some? && CurrentScope().value in kinds
    }

    twostate predicate TablesUnchanged()
      reads this
    {
      functions == old(functions) && classes == old(classes) && variables == old(variables)
      && identifiers == old(identifiers) && temps == old(temps)
    }

    /** `pushScope`: the new scope becomes the innermost. */
    method PushScope(next: ScopeType)
      modifies this
      ensures scope == [next] + old(scope) && TablesUnchanged()
    {
      scope := [next] + scope;
    }

    /** `popScope`: removes and returns the innermost scope; an empty stack gives nothing. */
    method PopScope() returns (r: Option<ScopeType>)
      modifies this
      ensures r == old(CurrentScope())
      ensures scope == if |old(scope)| == 0 then [] else old(scope)[1..]
      ensures TablesUnchanged()
    {
      if |scope| == 0 {
        r := None;
      } else {
        r := Some(scope[0]);
        scope := scope[1..];
      }
    }

    /** A fresh temporary, for the match variable. */
    method NewTemp() returns (id: string)
      modifies this
      ensures id == temporary(old(temps)) && temps == old(temps) + 1 && scope == old(scope)
      ensures functions == old(functions) && classes == old(classes) && variables == old(variables)
      ensures identifiers == old(identifiers)
    {
      id := temporary(temps);
      temps := temps + 1;
    }

    /** `visitIdentifier`: the memoised encoding; the first visit of an id fills its entry. */
    method VisitIdentifier(id: string) returns (r: string)
      requires Valid()
      modifies this
      ensures Valid()
      ensures r == Utils.EncodeIdentifier(id, reserved)
      ensures identifiers == old(identifiers)[id := r]
      ensures old(id in identifiers) ==> r == old(identifiers[id])
      ensures scope == old(scope) && functions == old(functions) && classes == old(classes)
      ensures variables == old(variables) && temps == old(temps)
    {
      if id in identifiers {
        r := identifiers[id];
      } else {
        r := Utils.EncodeIdentifier(id, reserved);
        identifiers := identifiers[id := r];
      }
    }

    /** `visit`: the dispatch of the base class over the handlers defined here. */
    method Visit(n: Tree) returns (r: Compiled)
      requires Valid()
      modifies this
      ensures Valid()
      ensures r.Value? ==> scope == old(scope)
      ensures NameCode(n, reserved).Some? ==> r == Value(NameCode(n, reserved).value)
      ensures Passive(n) ==> r == Value(Undefined) && unchanged(this)
      ensures LeafCode(n).Some? ==> r == Value(LeafCode(n).value) && unchanged(this)
      decreases n, 6
    {
      if IsSequenceNode(n) {
        r := VisitSequence(n);
      } else if IsMappingNode(n) {
        r := VisitMapping(n);
      } else if IsNamedTypeNode(n) {
        r := VisitNamedType(n);
      } else if IsComposedTypeNode(n) {
        r := VisitComposedType(n);
      } else if IsVariableNode(n) {
        r := VisitVariableForm(n);
      } else if IsFunctionForm(n) {
        r := VisitFunctionForm(n);
      } else if IsTypeDefinitionNode(n) {
        r := VisitTypeDefinition(n);
      } else if IsStatementNode(n) {
        r := VisitStatement(n);
      } else if IsBranchNode(n) {
        r := VisitBranch(n);
      } else if IsStructuredPattern(n) {
        r := VisitStructuredPattern(n);
      } else if IsSimplePattern(n) {
        r := VisitSimplePattern(n);
      } else {
        r := VisitLiteral(n);
      }
    }

    /** The dispatch for programs, lists, quotes and vectors. */
    method VisitSequence(n: Tree) returns (r: Compiled)
      requires IsSequenceNode(n)
      requires Valid()
      modifies this
      ensures Valid()
      ensures r.Value? ==> scope == old(scope)
      ensures NameCode(n, reserved).Some? ==> r == Value(NameCode(n, reserved).value)
      ensures Passive(n) ==> r == Value(Undefined) && unchanged(this)
      decreases n, 5
    {
      ChildrenWellFormed(n);
      if n.ProgramNode? {
        var program := n.program;
        var c, _ := VisitWrapped(n, program, "", ";\n", "");
        r := c;
      } else if n.ListNode? {
        var c, _, _ := VisitList(n);
        r := c;
      } else if n.QuoteNode? {
        r := Unmodelled(V.VisitQuote);
      } else {
        var values := n.values;
        var c, _ := VisitWrapped(n, values, "[", ",", "]");
        r := c;
      }
    }

    /** The dispatch for maps, their entries and the module forms. */
    method VisitMapping(n: Tree) returns (r: Compiled)
      requires IsMappingNode(n)
      requires Valid()
      modifies this
      ensures Valid()
      ensures r.Value? ==> scope == old(scope)
      ensures NameCode(n, reserved).Some? ==> r == Value(NameCode(n, reserved).value)
      ensures Passive(n) ==> r == Value(Undefined) && unchanged(this)
      ensures LeafCode(n).Some? ==> r == Value(LeafCode(n).value) && unchanged(this)
      decreases n, 5
    {
      ChildrenWellFormed(n);
      if n.MapNode? {
        var values := n.values;
        var c, _ := VisitWrapped(n, values, "{ ", ",", " }");
        r := c;
      } else if n.KeyValueNode? {
        var key := n.key;
        var entryValue := n.entryValue;
        var c, _, _ := VisitPair(n, Some(n.key), entryValue, ": ", "");
        r := c;
      } else if n.ImportNode? {
        r := Value(Undefined);
      } else {
        r := Value(Undefined);
      }
    }

    /** The dispatch for named, union, intersection and simple types. */
    method VisitNamedType(n: Tree) returns (r: Compiled)
      requires IsNamedTypeNode(n)
      requires Valid()
      modifies this
      ensures Valid()
      ensures r.Value? ==> scope == old(scope)
      ensures NameCode(n, reserved).Some? ==> r == Value(NameCode(n, reserved).value)
      ensures Passive(n) ==> r == Value(Undefined) && unchanged(this)
      decreases n, 5
    {
      ChildrenWellFormed(n);
      if n.TypeNameNode? {
        var typeName := n.typeName;
        r := Value(Str(typeName));
      } else if n.UnionTypeNode? {
        var types := n.types;
        var c, _ := VisitWrapped(n, types, "", " | ", "");
        r := c;
      } else if n.IntersectionTypeNode? {
        var types := n.types;
        var c, _ := VisitWrapped(n, types, "", " & ", "");
        r := c;
      } else {
        var name := n.name;
        assert name.Some? ==> name.value in Children(n);
        r := VisitInner(n, name);
      }
    }

    /** The dispatch for generic, map and mapped types. */
    method VisitComposedType(n: Tree) returns (r: Compiled)
      requires IsComposedTypeNode(n)
      requires Valid()
      modifies this
      ensures Valid()
      ensures r.Value? ==> scope == old(scope)
      ensures NameCode(n, reserved).Some? ==> r == Value(NameCode(n, reserved).value)
      ensures Passive(n) ==> r == Value(Undefined) && unchanged(this)
      decreases n, 5
    {
      ChildrenWellFormed(n);
      if n.GenericTypeNode? {
        var name := n.name;
        var generic := n.generic;
        assert name.Some? ==> name.value in Children(n);
        assert name.Some? ==> name.value in Children(n);
        var c, _, _ := VisitPair(n, name, generic, "<", ">");
        r := c;
      } else if n.MapTypeNode? {
        var keys := n.keys;
        var c, _ := VisitWrapped(n, keys, "{ ", ",", " }");
        r := c;
      } else {
        var mapping := n.mapping;
        var c, _ := VisitAround(n, mapping, "{ ", " }");
        r := c;
      }
    }

    /** The dispatch for variables and modifiers. */
    method VisitVariableForm(n: Tree) returns (r: Compiled)
      requires IsVariableNode(n)
      requires Valid()
      modifies this
      ensures Valid()
      ensures r.Value? ==> scope == old(scope)
      ensures NameCode(n, reserved).Some? ==> r == Value(NameCode(n, reserved).value)
      ensures Passive(n) ==> r == Value(Undefined) && unchanged(this)
      decreases n, 5
    {
      if n.VariableNode? {
        assert !Passive(n) && NameCode(n, reserved).None?;
        var c, _ := VisitVariable(n);
        r := c;
      } else {
        r := Value(Undefined);
      }
    }

    /** The dispatch for functions and their parameters. */
    method VisitFunctionForm(n: Tree) returns (r: Compiled)
      requires IsFunctionForm(n)
      requires Valid()
      modifies this
      ensures Valid()
      ensures r.Value? ==> scope == old(scope)
      ensures NameCode(n, reserved).Some? ==> r == Value(NameCode(n, reserved).value)
      ensures Passive(n) ==> r == Value(Undefined) && unchanged(this)
      decreases n, 5
    {
      if n.FunctionNode? {
        assert !Passive(n) && NameCode(n, reserved).None?;
        var c, _ := VisitFunction(n);
        r := c;
      } else {
        var name := n.name;
        var v := VisitName(name);
        r := Value(v);
      }
    }

    /** The dispatch for carrying chains, classes and interfaces. */
    method VisitTypeDefinition(n: Tree) returns (r: Compiled)
      requires IsTypeDefinitionNode(n)
      requires Valid()
      modifies this
      ensures Valid()
      ensures r.Value? ==> scope == old(scope)
      ensures NameCode(n, reserved).Some? ==> r == Value(NameCode(n, reserved).value)
      ensures Passive(n) ==> r == Value(Undefined) && unchanged(this)
      decreases n, 5
    {
      ChildrenWellFormed(n);
      if n.FunctionCarryingNode? {
        var c, _ := VisitFunctionCarrying(n);
        r := c;
      } else if n.CarryingStepNode? {
        r := Value(Undefined);
      } else if n.ClassNode? {
        var c, _, _, _, _, _, _, _ := VisitClass(n);
        r := c;
      } else {
        var c, _, _, _ := VisitInterface(n);
        r := c;
      }
    }

    /** The dispatch for try, await, assignment and when forms. */
    method VisitStatement(n: Tree) returns (r: Compiled)
      requires IsStatementNode(n)
      requires Valid()
      modifies this
      ensures Valid()
      ensures r.Value? ==> scope == old(scope)
      ensures NameCode(n, reserved).Some? ==> r == Value(NameCode(n, reserved).value)
      ensures Passive(n) ==> r == Value(Undefined) && unchanged(this)
      decreases n, 5
    {
      ChildrenWellFormed(n);
      if n.TryCatchNode? {
        r := Unmodelled(V.VisitTryCatch);
      } else if n.AwaitNode? {
        var expression := n.expression;
        var c, _ := VisitAround(n, expression, "await ", "");
        r := c;
      } else if n.AssignmentNode? {
        var assignable := n.assignable;
        var newValue := n.newValue;
        var c, _, _ := VisitPair(n, Some(n.assignable), newValue, " = ", "");
        r := c;
      } else {
        var c, _, _ := VisitWhen(n);
        r := c;
      }
    }

    /** The dispatch for conditionals, matches and match cases. */
    method VisitBranch(n: Tree) returns (r: Compiled)
      requires IsBranchNode(n)
      requires Valid()
      modifies this
      ensures Valid()
      ensures r.Value? ==> scope == old(scope)
      ensures NameCode(n, reserved).Some? ==> r == Value(NameCode(n, reserved).value)
      ensures Passive(n) ==> r == Value(Undefined) && unchanged(this)
      decreases n, 5
    {
      ChildrenWellFormed(n);
      if n.IfNode? {
        var c, _, _, _ := VisitIf(n);
        r := c;
      } else if n.MatchNode? {
        MatchPatterns(n);
        var c, _, _ := VisitMatch(n);
        r := c;
      } else {
        r := VisitMatchCase(n);
      }
    }

    /** The dispatch for wildcard, list, vector and map patterns. */
    method VisitStructuredPattern(n: Tree) returns (r: Compiled)
      requires IsStructuredPattern(n)
      requires Valid()
      modifies this
      ensures Valid()
      ensures r.Value? ==> scope == old(scope)
      ensures NameCode(n, reserved).Some? ==> r == Value(NameCode(n, reserved).value)
      ensures Passive(n) ==> r == Value(Undefined) && unchanged(this)
      ensures LeafCode(n).Some? ==> r == Value(LeafCode(n).value) && unchanged(this)
      decreases n, 5
    {
      ChildrenWellFormed(n);
      if n.AnyPatternNode? {
        r := Value(Str("_"));
      } else if n.ListPatternNode? {
        var elements := n.elements;
        var c, _ := VisitWrapped(n, elements, "[", ",", "]");
        r := c;
      } else if n.VectorPatternNode? {
        var elements := n.elements;
        var c, _ := VisitWrapped(n, elements, "[", ",", "]");
        r := c;
      } else {
        var pairs := n.pairs;
        var c, _ := VisitWrapped(n, pairs, "{ ", ",", " }");
        r := c;
      }
    }

    /** The dispatch for map pattern pairs, identifier and constant patterns. */
    method VisitSimplePattern(n: Tree) returns (r: Compiled)
      requires IsSimplePattern(n)
      requires Valid()
      modifies this
      ensures Valid()
      ensures r.Value? ==> scope == old(scope)
      ensures NameCode(n, reserved).Some? ==> r == Value(NameCode(n, reserved).value)
      ensures Passive(n) ==> r == Value(Undefined) && unchanged(this)
      decreases n, 5
    {
      ChildrenWellFormed(n);
      if n.MapPatternPairNode? {
        var key := n.key;
        var pattern := n.pattern;
        var c, _, _ := VisitPair(n, Some(n.key), pattern, ": ", "");
        r := c;
      } else if n.IdentifierPatternNode? {
        var identifier := n.identifier;
        r := VisitInner(n, Some(n.identifier));
      } else {
        var constant := n.constant;
        r := VisitInner(n, Some(n.constant));
      }
    }

    /** The dispatch for strings, numbers, identifiers, comments and the opaque nodes. */
    method VisitLiteral(n: Tree) returns (r: Compiled)
      requires NotGrouped(n)
      requires Valid()
      modifies this
      ensures Valid()
      ensures r.Value? ==> scope == old(scope)
      ensures NameCode(n, reserved).Some? ==> r == Value(NameCode(n, reserved).value)
      ensures Passive(n) ==> r == Value(Undefined) && unchanged(this)
      ensures LeafCode(n).Some? ==> r == Value(LeafCode(n).value) && unchanged(this)
      decreases n, 5
    {
      ChildrenWellFormed(n);
      if n.StringNode? {
        var text := n.text;
        r := Value(Str(StringCode(text)));
      } else if n.FormattedStringNode? {
        var c, _ := VisitFormattedString(n);
        r := c;
      } else if n.FormatExpressionNode? {
        var expression := n.expression;
        var c, _ := VisitAround(n, expression, "${", "}");
        r := c;
      } else if n.NumberNode? {
        var radix := n.radix;
        var number := n.number;
        r := Value(Str(NumberCode(radix, number)));
      } else if n.FloatNumberNode? {
        var rendered := n.rendered;
        r := Value(Str(rendered));
      } else if n.FractionNumberNode? {
        r := Value(Undefined);
      } else if n.SimpleIdentifierNode? {
        var id := n.id;
        var s := VisitIdentifier(id);
        r := Value(Str(s));
      } else if n.CompositeIdentifierNode? {
        var id := n.id;
        var s := VisitIdentifier(id);
        r := Value(Str(s));
      } else if n.CommentNode? {
        var comment := n.comment;
        r := Value(Str("/* " + comment + " */"));
      } else if n.ControlCommentNode? {
        var mode := n.mode;
        var command := n.command;
        var options := n.options;
        r := Value(Str("// " + mode + command + " " + Join(options, " ")));
      } else {
        var tag := n.tag;
        if tag == Implements {
          r := Unmodelled(V.VisitImplements);
        } else if tag == Extends {
          r := Unmodelled(V.VisitExtends);
        } else {
          r := Value(Undefined);
        }
      }
    }

    /** The visits of `ns` in order, stopping at the first that gives no value. */
    method VisitAll(ghost parent: Node, ns: seq<Tree>) returns (o: Visited)
      requires Valid() && Below(ns, parent)
      modifies this
      ensures Valid()
      ensures o.Values? ==> |o.values| == |ns| && scope == old(scope)
      ensures o.Values? ==> forall i | 0 <= i < |ns| && NameCode(ns[i], reserved).Some? ::
                              o.values[i] == NameCode(ns[i], reserved).value
      ensures o.Values? ==> forall i | 0 <= i < |ns| && Passive(ns[i]) :: o.values[i] == Undefined
      ensures o.Stopped? ==> !o.reason.Value?
      ensures (forall i | 0 <= i < |ns| :: NameCode(ns[i], reserved).Some?) ==> o.Values?
      decreases parent, 0
    {
      var vs: seq<JsValue> := [];
      for i := 0 to |ns|
        invariant Valid() && scope == old(scope) && |vs| == i
        invariant forall j | 0 <= j < i && NameCode(ns[j], reserved).Some? :: vs[j] == NameCode(ns[j], reserved).value
        invariant forall j | 0 <= j < i && Passive(ns[j]) :: vs[j] == Undefined
      {
        var c := Visit(ns[i]);
        if !c.Value? {
          return Stopped(c);
        }
        vs := vs + [c.value];
      }
      return Values(vs);
    }

    /** Program, union, intersection, collection and pattern handlers: the visits of `ns`, joined and wrapped. */
    method VisitWrapped(n: Tree, ns: seq<Tree>, open: string, sep: string, close: string) returns (r: Compiled, ghost vs: seq<JsValue>)
      requires Valid() && Below(ns, n)
      modifies this
      ensures Valid()
      ensures r.Value? ==> scope == old(scope) && |vs| == |ns| && r.value == Str(open + Joined(vs, sep) + close)
      decreases n, 2
    {
      var o := VisitAll(n, ns);
      if o.Stopped? {
        return o.reason, [];
      }
      var values := o.values;
      vs := values;
      r := Value(Str(open + Joined(values, sep) + close));
    }

    /** Handlers that return the visit of one optional child as it is. */
    method VisitInner(n: Tree, a: Option<Tree>) returns (r: Compiled)
      requires Valid() && (a.Some? ==> a.value < n)
      modifies this
      ensures Valid()
      ensures r.Value? ==> scope == old(scope)
      ensures a.None? ==> r == Value(Undefined)
      ensures a.Some? && NameCode(a.value, reserved).Some? ==> r == Value(NameCode(a.value, reserved).value)
      decreases n, 2
    {
      if a.Some? {
        r := Visit(a.value);
      } else {
        r := Value(Undefined);
      }
    }

    /** Handlers that print one child between fixed texts. */
    method VisitAround(n: Tree, a: Tree, open: string, close: string) returns (r: Compiled, ghost x: JsValue)
      requires Valid() && a < n
      modifies this
      ensures Valid()
      ensures r.Value? ==> scope == old(scope) && r.value == Str(open + Template(x) + close)
      decreases n, 2
    {
      var c := Visit(a);
      if !c.Value? {
        return c, Undefined;
      }
      var v := c.value;
      x := v;
      r := Value(Str(open + Template(v) + close));
    }

    /** Handlers that print two children, the first optional, with a text between and after. */
    method VisitPair(n: Tree, a: Option<Tree>, b: Tree, mid: string, close: string)
      returns (r: Compiled, ghost x: JsValue, ghost y: JsValue)
      requires Valid() && (a.Some? ==> a.value < n) && b < n
      modifies this
      ensures Valid()
      ensures r.Value? ==> scope == old(scope) && r.value == Str(Template(x) + mid + Template(y) + close)
      ensures a.None? ==> x == Undefined
      decreases n, 2
    {
      var c: Compiled := Value(Undefined);
      if a.Some? {
        c := Visit(a.value);
        if !c.Value? {
          return c, Undefined, Undefined;
        }
      }
      x := c.value;
      var d := Visit(b);
      if !d.Value? {
        return d, x, Undefined;
      }
      y := d.value;
      r := Value(Str(Template(c.value) + mid + Template(d.value) + close));
    }

    /** `visitMatchCase`: visits the pattern and the body and gives an object holding both. */
    method VisitMatchCase(n: Tree) returns (r: Compiled)
      requires Valid() && n.MatchCaseNode?
      modifies this
      ensures Valid()
      ensures r.Value? ==> scope == old(scope) && r.value == Record
      decreases n, 3
    {
      assert Children(n) == [n.pattern, n.caseBody];
      assert n.pattern in Children(n) && n.caseBody in Children(n);
      var p := Visit(n.pattern);
      if !p.Value? {
        return p;
      }
      var b := Visit(n.caseBody);
      if !b.Value? {
        return b;
      }
      r := Value(Record);
    }

    /** `visitFormattedString`: string segments give their raw text, the others their visit; all joined with nothing between. */
    method VisitFormattedString(n: Tree) returns (r: Compiled, ghost vs: seq<JsValue>)
      requires Valid() && n.FormattedStringNode?
      modifies this
      ensures Valid()
      ensures r.Value? ==> scope == old(scope) && |vs| == |n.segments|
      ensures r.Value? ==> forall i | 0 <= i < |vs| && n.segments[i].StringNode? :: vs[i] == Str(n.segments[i].text)
      ensures r.Value? ==> r.value == Str("`" + Joined(vs, "") + "`")
      decreases n, 3
    {
      var values: seq<JsValue> := [];
      for i := 0 to |n.segments|
        invariant Valid() && scope == old(scope) && |values| == i
        invariant forall j | 0 <= j < i && n.segments[j].StringNode? :: values[j] == Str(n.segments[j].text)
      {
        var x := n.segments[i];
        if x.StringNode? {
          values := values + [Str(x.text)];
        } else {
          assert x in Children(n);
          var c := Visit(x);
          if !c.Value? {
            return c, values;
          }
          values := values + [c.value];
        }
      }
      vs := values;
      r := Value(Str("`" + Joined(values, "") + "`"));
    }

    /**
     * The visit of a declaration's name, which the parser makes an
     * identifier: the table sends it to `visitIdentifier`; no name gives
     * `undefined`.
     */
    method VisitName(name: Option<Node>) returns (v: JsValue)
      requires Valid() && (name.Some? ==> IsIdentifierNode(name.value))
      modifies this
      ensures Valid() && v == VisitedName(name, reserved)
      ensures scope == old(scope) && functions == old(functions) && classes == old(classes)
      ensures variables == old(variables) && temps == old(temps)
    {
      v := Undefined;
      if name.Some? {
        var id := VisitIdentifier(name.value.id);
        v := Str(id);
      }
    }

    /**
     * `visitVariable`: the name and the value are visited in variable scope;
     * the declaration is formatted for the enclosing scope and its name
     * recorded last among the variables.
     */
    method VisitVariable(n: Tree) returns (r: Compiled, ghost value: Compiled)
      requires Valid() && n.VariableNode?
      modifies this
      ensures Valid()
      ensures n.value.None? ==> value == Value(Undefined)
      ensures !value.Value? ==> r == value
      ensures value.Value? ==>
                r == Lifted(FormatVariable(old(CurrentScope()), n.mutable, VisitedName(n.name, reserved), value.value))
                && scope == old(scope) && |variables| > 0 && variables[|variables| - 1] == VisitedName(n.name, reserved)
      decreases n, 3
    {
      ChildrenWellFormed(n);
      assert n.value.Some? ==> n.value.value in Children(n);
      PushScope(VariableScope);
      var name := VisitName(n.name);
      var v := VisitInner(n, n.value);
      value := v;
      if v.Value? {
        var _ := PopScope();
        variables := variables + [name];
        r := Lifted(FormatVariable(CurrentScope(), n.mutable, name, v.value));
      } else {
        r := v;
      }
    }

    /**
     * `visitFunction`: the name, parameters and body are visited in method
     * scope inside a class or interface and in function scope elsewhere; the
     * function is formatted for the enclosing scope and, when that succeeds,
     * its name recorded last among the functions.
     */
    method VisitFunction(n: Tree) returns (r: Compiled, ghost body: Visited)
      requires Valid() && n.FunctionNode?
      modifies this
      ensures Valid()
      ensures body.Stopped? ==> r == body.reason && !r.Value?
      ensures body.Values? ==>
                |body.values| == |n.body| && scope == old(scope)
                && r == Lifted(FormatFunction(old(CurrentScope()), n.isAsync, VisitedName(n.name, reserved),
                                              Joined(ParamNames(n.params, reserved), ","), body.values))
      ensures r.Value? ==> |functions| > 0 && functions[|functions| - 1] == VisitedName(n.name, reserved)
      decreases n, 3
    {
      var name, params, b := VisitFunctionParts(n);
      body := b;
      if b.Values? {
        var _ := PopScope();
        var f := FormatFunction(CurrentScope(), n.isAsync, name, Joined(params, ","), b.values);
        r := Lifted(f);
        if f.Success? {
          functions := functions + [name];
        }
      } else {
        r := b.reason;
      }
    }

    /** The visits of a function's name, parameters and body, in the scope the function opens. */
    method VisitFunctionParts(n: Tree) returns (name: JsValue, params: seq<JsValue>, body: Visited)
      requires Valid() && n.FunctionNode?
      modifies this
      ensures Valid() && name == VisitedName(n.name, reserved) && params == ParamNames(n.params, reserved)
      ensures body.Stopped? ==> !body.reason.Value?
      ensures body.Values? ==> |body.values| == |n.body| && |scope| > 0 && scope[1..] == old(scope)
      decreases n, 2
    {
      ChildrenWellFormed(n);
      assert forall i | 0 <= i < |n.params| :: n.params[i] in Children(n);
      assert forall i | 0 <= i < |n.body| :: n.body[i] in Children(n);
      PushScope(if InScope({ClassScope, InterfaceScope}) then MethodScope else FunctionScope);
      name := VisitName(n.name);
      params := VisitParams(n, n.params);
      body := VisitAll(n, n.body);
    }

    /** The parameters' visits, which are their encoded names. */
    method VisitParams(ghost parent: Node, params: seq<Tree>) returns (names: seq<JsValue>)
      requires Valid() && Below(params, parent)
      requires forall i | 0 <= i < |params| :: params[i].ParameterNode?
      modifies this
      ensures Valid() && scope == old(scope) && names == ParamNames(params, reserved)
      decreases parent, 1
    {
      forall i | 0 <= i < |params| ensures NameCode(params[i], reserved) == Some(VisitedName(params[i].name, reserved)) {
        assert LocalShape(params[i]);
      }
      var o := VisitAll(parent, params);
      names := o.values;
    }

    /** `visitFunctionCarrying`: the steps rewrite the code left to right, starting from the seed identifier. */
    method VisitFunctionCarrying(n: Tree) returns (r: Compiled, ghost steps: seq<Step>)
      requires Valid() && n.FunctionCarryingNode?
      modifies this
      ensures Valid()
      ensures r.Value? ==> scope == old(scope) && |steps| == |n.sequence|
      ensures r.Value? ==> forall i | 0 <= i < |steps| :: StepOf(steps[i], n.sequence[i])
      ensures r.Value? ==> r.value == Carry(Str(Utils.EncodeIdentifier(n.identifier.id, reserved)), steps)
      decreases n, 3
    {
      ChildrenWellFormed(n);
      assert forall k | 0 <= k < |n.sequence| :: n.sequence[k] in Children(n);
      var id := VisitIdentifier(n.identifier.id);
      var c, done := VisitSteps(n, n.sequence, Str(id));
      r, steps := c, done;
    }

    /** The `forEach` over the steps: each one rewrites the code carried so far. */
    method VisitSteps(ghost parent: Node, items: seq<Tree>, seed: JsValue) returns (r: Compiled, ghost steps: seq<Step>)
      requires Valid() && Below(items, parent)
      requires forall k | 0 <= k < |items| :: items[k].CarryingStepNode?
      modifies this
      ensures Valid()
      ensures r.Value? ==> scope == old(scope) && |steps| == |items|
      ensures r.Value? ==> forall i | 0 <= i < |steps| :: StepOf(steps[i], items[i])
      ensures r.Value? ==> r.value == Carry(seed, steps)
      decreases parent, 2
    {
      var code := seed;
      var done: seq<Step> := [];
      for i := 0 to |items|
        invariant Valid() && scope == old(scope) && |done| == i
        invariant code == Carry(seed, done)
        invariant forall j | 0 <= j < i :: StepOf(done[j], items[j])
      {
        assert items[i] < parent && items[i].CarryingStepNode?;
        var c, s := VisitStep(parent, items[i]);
        if !c.Value? {
          return c, done;
        }
        StepsExtend(done, items, s);
        CarryLast(seed, done, s);
        code := ApplyStep(code, s);
        done := done + [s];
      }
      steps := done;
      r := Value(code);
    }

    /** One step of a carrying chain: its function and then its arguments are visited. */
    method VisitStep(ghost parent: Node, item: Tree) returns (c: Compiled, s: Step)
      requires Valid() && item.CarryingStepNode? && item < parent
      modifies this
      ensures Valid()
      ensures c.Value? ==> scope == old(scope) && StepOf(s, item)
      decreases parent, 1
    {
      ChildrenWellFormed(item);
      assert Children(item) == [item.fn] + item.args;
      assert item.fn in Children(item);
      s := Step(item.operator, item.memberFunction, Undefined, []);
      c := Visit(item.fn);
      if c.Value? {
        var args := VisitAll(item, item.args);
        if args.Values? {
          s := Step(item.operator, item.memberFunction, c.value, args.values);
        } else {
          c := args.reason;
        }
      }
    }

    /** `visitInterface`: name, access modifiers and body visited in interface scope; no implements clause. */
    method VisitInterface(n: Tree) returns (r: Compiled, ghost name: JsValue, ghost access: seq<JsValue>,
                                            ghost body: seq<JsValue>)
      requires Valid() && n.InterfaceNode?
      modifies this
      ensures Valid()
      ensures r.Value? ==> scope == old(scope) && |access| == |n.access| && |body| == |n.body|
      ensures r.Value? ==> forall i | 0 <= i < |n.access| && Passive(n.access[i]) :: access[i] == Undefined
      ensures r.Value? && (forall i | 0 <= i < |n.access| :: n.access[i].ModifierNode?) ==>
                Joined(access, " ") == Repeat(' ', if |n.access| == 0 then 0 else |n.access| - 1)
      ensures r.Value? ==>
                r.value == Str(Joined(access, " ") + " interface " + Template(name) + " {\n" + Joined(body, "\n") + "\n}")
      decreases n, 3
    {
      ChildrenWellFormed(n);
      assert n.name.Some? ==> n.name.value in Children(n);
      assert Below(n.access, n) && Below(n.body, n);
      assert forall i | 0 <= i < |n.access| :: n.access[i] in Children(n);
      assert forall i | 0 <= i < |n.body| :: n.body[i] in Children(n);
      PushScope(InterfaceScope);
      name, access, body := Undefined, [], [];
      var c := VisitInner(n, n.name);
      if !c.Value? {
        return c, Undefined, [], [];
      }
      var a := VisitAll(n, n.access);
      if a.Stopped? {
        return a.reason, Undefined, [], [];
      }
      var b := VisitAll(n, n.body);
      if b.Stopped? {
        return b.reason, Undefined, [], [];
      }
      name, access, body := c.value, a.values, b.values;
      if forall i | 0 <= i < |n.access| :: n.access[i].ModifierNode? {
        UndefinedJoined(access, ' ');
      }
      var _ := PopScope();
      r := Value(Str(Joined(a.values, " ") + " interface " + Template(c.value) + " {\n" + Joined(b.values, "\n") + "\n}"));
    }

    /** `visitWhen`: condition and expressions visited in when scope; the form depends on the enclosing scope. */
    method VisitWhen(n: Tree) returns (r: Compiled, ghost condition: JsValue, ghost exprs: seq<JsValue>)
      requires Valid() && n.WhenNode?
      modifies this
      ensures Valid()
      ensures r.Value? ==> scope == old(scope) && |exprs| == |n.thenExprs|
      ensures r.Value? ==> n.condition.None? ==> condition == Undefined
      ensures r.Value? ==> r.value == Str(WhenCode(old(CurrentScope()) == Some(VariableScope), condition, exprs))
      decreases n, 3
    {
      ChildrenWellFormed(n);
      assert n.condition.Some? ==> n.condition.value in Children(n);
      assert forall i | 0 <= i < |n.thenExprs| :: n.thenExprs[i] in Children(n);
      PushScope(WhenScope);
      var c := VisitInner(n, n.condition);
      if !c.Value? {
        return c, Undefined, [];
      }
      condition := c.value;
      var e := VisitAll(n, n.thenExprs);
      if e.Stopped? {
        return e.reason, c.value, [];
      }
      exprs := e.values;
      var _ := PopScope();
      r := Value(Str(WhenCode(InScope({VariableScope}), c.value, e.values)));
    }

    /** `visitIf`: the parts visited in if scope; a ternary inside variable, when or match scope, a statement elsewhere. */
    method VisitIf(n: Tree) returns (r: Compiled, ghost condition: JsValue, ghost thenCode: JsValue,
                                     ghost elseCode: Option<JsValue>)
      requires Valid() && n.IfNode?
      modifies this
      ensures Valid()
      ensures r.Value? ==> scope == old(scope) && (elseCode.Some? <==> n.elseBranch.Some?)
      ensures r.Value? ==> r.value == Str(IfCode(old(CurrentScope()), condition, thenCode, elseCode))
      decreases n, 3
    {
      ChildrenWellFormed(n);
      assert n.condition.Some? ==> n.condition.value in Children(n);
      assert n.thenBranch.Some? ==> n.thenBranch.value in Children(n);
      assert n.elseBranch.Some? ==> n.elseBranch.value in Children(n);
      PushScope(IfScope);
      var c := VisitInner(n, n.condition);
      if !c.Value? {
        return c, Undefined, Undefined, None;
      }
      condition := c.value;
      var t := VisitInner(n, n.thenBranch);
      if !t.Value? {
        return t, c.value, Undefined, None;
      }
      thenCode := t.value;
      var otherwise: Option<JsValue> := None;
      if n.elseBranch.Some? {
        var e := Visit(n.elseBranch.value);
        if !e.Value? {
          return e, c.value, t.value, None;
        }
        otherwise := Some(e.value);
      }
      elseCode := otherwise;
      var _ := PopScope();
      r := Value(Str(IfCode(CurrentScope(), c.value, t.value, otherwise)));
    }

    /**
     * `visitMatch`: in match scope, a fresh variable holds the matched value;
     * the scrutinee and then the case bodies are visited in order, and the
     * cases' patterns become the conditions of the chain. The prelude
     * declares the raw ids, as `findIdentifiersToDefine` collects them.
     */
    method VisitMatch(n: Tree) returns (r: Compiled, ghost matchVal: JsValue, ghost bodies: seq<JsValue>)
      requires Valid() && n.MatchNode? && CasesArePatterns(n.cases)
      modifies this
      ensures Valid()
      ensures r.Value? ==> scope == old(scope) && |bodies| == |n.cases|
      ensures r.Value? ==> r.value == Str(MatchCodeAsWritten(temporary(old(temps)), matchVal, CasePatterns(n.cases), bodies, reserved))
      decreases n, 3
    {
      ChildrenWellFormed(n);
      PushScope(MatchScope);
      var matchVar := NewTemp();
      assert n.expression in Children(n);
      var v := Visit(n.expression);
      if !v.Value? {
        return v, Undefined, [];
      }
      matchVal := v.value;
      var bs: seq<JsValue> := [];
      for i := 0 to |n.cases|
        invariant Valid() && scope == [MatchScope] + old(scope) && |bs| == i
      {
        var x := n.cases[i];
        assert x in Children(n);
        assert Children(x) == [x.pattern, x.caseBody];
        ChildrenWellFormed(x);
        assert x.caseBody in Children(x);
        var b := Visit(x.caseBody);
        if !b.Value? {
          return b, v.value, bs;
        }
        bs := bs + [b.value];
      }
      bodies := bs;
      var _ := PopScope();
      r := Value(Str(MatchCodeAsWritten(matchVar, v.value, CasePatterns(n.cases), bs, reserved)));
    }

    /**
     * `visitList`: the head is visited, then the arguments, whose falsy
     * results are dropped; an identifier head becomes a call, a construction
     * or a reference, any other head a sequence. An empty list reads `_type`
     * of `undefined` and throws.
     */
    method VisitList(n: Tree) returns (r: Compiled, ghost callee: JsValue, ghost args: seq<JsValue>)
      requires Valid() && n.ListNode?
      modifies this
      ensures Valid()
      ensures |n.nodes| == 0 ==> r == Thrown(UndefinedTypeRead)
      ensures r.Value? ==> scope == old(scope) && |n.nodes| > 0 && |args| == |n.nodes| - 1
      ensures r.Value? && IsIdentifierNode(n.nodes[0]) ==>
                r.value == Str(IdentifierCall(Utils.EncodeIdentifier(n.nodes[0].id, reserved), KeepTruthy(args),
                                              functions, classes, variables))
      ensures r.Value? && !IsIdentifierNode(n.nodes[0]) ==>
                r.value == Str(OtherCall(callee, KeepTruthy(args), old(CurrentScope()) == Some(VariableScope)))
      decreases n, 3
    {
      if |n.nodes| == 0 {
        return Thrown(UndefinedTypeRead), Undefined, [];
      }
      ChildrenWellFormed(n);
      var head := Visit(n.nodes[0]);
      if !head.Value? {
        return head, Undefined, [];
      }
      callee := head.value;
      var calleeValue := head.value;
      var rest := n.nodes[1..];
      assert forall i | 0 <= i < |rest| :: rest[i] == n.nodes[i + 1];
      var o := VisitAll(n, rest);
      if o.Stopped? {
        return o.reason, callee, [];
      }
      args := o.values;
      var kept := KeepTruthy(o.values);
      if IsIdentifierNode(n.nodes[0]) {
        r := Value(Str(IdentifierCall(Template(calleeValue), kept, functions, classes, variables)));
      } else {
        r := Value(Str(OtherCall(calleeValue, kept, InScope({VariableScope}))));
      }
    }

    /**
     * `visitClass`: in class scope, a builder lowers the class; then the
     * name is visited again and recorded among the classes.
     */
    method VisitClass(n: Tree) returns (r: Compiled, ghost name: JsValue, ghost fieldsCode: string,
                                        ghost methodsCode: string, ghost othersCode: string,
                                        ghost values: seq<JsValue>, ghost bodies: seq<seq<JsValue>>,
                                        ghost others: seq<JsValue>)
      requires Valid() && n.ClassNode?
      modifies this
      ensures Valid()
      ensures r.Value? ==> scope == old(scope) && Members(n.body).Success?
      ensures OptionCode(n.name, reserved).Some? && Members(n.body).Failure? ==> r == Thrown(Members(n.body).error)
      ensures OptionCode(n.name, reserved).Some? && r.Value? ==>
                name == OptionCode(n.name, reserved).value && |classes| > 0 && classes[|classes| - 1] == name
      ensures r.Value? ==> r.value == Str(ClassText(n, name, fieldsCode, methodsCode, othersCode, reserved))
      ensures r.Value? ==> ClassParts(n, fieldsCode, methodsCode, othersCode, values, bodies, others, reserved)
      decreases n, 4
    {
      PushScope(ClassScope);
      var c, nm, f, m, o, vs, bs, os := LowerClass(n);
      name, fieldsCode, methodsCode, othersCode, values, bodies, others := nm, f, m, o, vs, bs, os;
      if !c.Value? {
        return c, nm, f, m, o, vs, bs, os;
      }
      var again := VisitClassName(n);
      if !again.Value? {
        return again, nm, f, m, o, vs, bs, os;
      }
      classes := classes + [again.value];
      var _ := PopScope();
      r := c;
    }

    /** `new ClassBuilder(...).build()`: the class text, or what construction or building raised. */
    method LowerClass(n: Tree) returns (r: Compiled, ghost name: JsValue, ghost fieldsCode: string,
                                        ghost methodsCode: string, ghost othersCode: string,
                                        ghost values: seq<JsValue>, ghost bodies: seq<seq<JsValue>>,
                                        ghost others: seq<JsValue>)
      requires Valid() && n.ClassNode?
      modifies this
      ensures Valid()
      ensures r.Value? ==> scope == old(scope) && Members(n.body).Success?
      ensures OptionCode(n.name, reserved).Some? && Members(n.body).Failure? ==> r == Thrown(Members(n.body).error)
      ensures OptionCode(n.name, reserved).Some? ==> name == OptionCode(n.name, reserved).value
      ensures r.Value? ==> r.value == Str(ClassText(n, name, fieldsCode, methodsCode, othersCode, reserved))
      ensures r.Value? ==> ClassParts(n, fieldsCode, methodsCode, othersCode, values, bodies, others, reserved)
      decreases n, 3
    {
      var builder := new ClassBuilder(this, n);
      name, fieldsCode, methodsCode, othersCode, values, bodies, others := builder.name, "", "", "", [], [], [];
      if builder.thrown.Some? {
        return builder.thrown.value, builder.name, "", "", "", [], [], [];
      }
      var c, f, m, o, vs, bs, os := builder.Build();
      fieldsCode, methodsCode, othersCode, values, bodies, others := f, m, o, vs, bs, os;
      r := c;
    }

    /** The visit of a class's name; the builder takes it first, and the class table again at the end. */
    method VisitClassName(n: Tree) returns (r: Compiled)
      requires Valid() && n.ClassNode?
      modifies this
      ensures Valid() && (r.Value? ==> scope == old(scope))
      ensures OptionCode(n.name, reserved).Some? ==> r == Value(OptionCode(n.name, reserved).value)
      decreases n, 1
    {
      r := Value(Undefined);
      if n.name.Some? {
        ChildrenWellFormed(n);
        assert n.name.value in Children(n);
        r := Visit(n.name.value);
      }
    }

    /** The visits of the variables' names, in order. */
    method VisitVariableNames(vs: seq<Node>) returns (names: seq<JsValue>)
      requires Valid() && forall x | x in vs :: x.VariableNode? && (x.name.Some? ==> IsIdentifierNode(x.name.value))
      modifies this
      ensures Valid() && names == VariableNames(vs, reserved)
      ensures scope == old(scope) && functions == old(functions) && classes == old(classes)
      ensures variables == old(variables) && temps == old(temps)
    {
      names := [];
      for i := 0 to |vs|
        invariant Valid() && |names| == i
        invariant forall j | 0 <= j < i :: names[j] == VisitedName(vs[j].name, reserved)
        invariant scope == old(scope) && functions == old(functions) && classes == old(classes)
        invariant variables == old(variables) && temps == old(temps)
      {
        assert vs[i] in vs;
        var v := VisitName(vs[i].name);
        names := names + [v];
      }
      ghost var expected := VariableNames(vs, reserved);
      assert forall j | 0 <= j < |vs| :: names[j] == expected[j];
    }
  }

  /**
   * `ClassBuilder`: lowers one class node for the compiler. Construction
   * visits the name, reads the access modifiers and the heritage clauses and
   * splits the members into constructor fields, plain fields, methods and
   * the rest; `Build` visits and prints the four parts in that order.
   */
  class ClassBuilder {
    const visitor: JSCompiler
    /** The class node being lowered. */
    ghost const root: Node
    var name: JsValue
    var accessModifiers: seq<JsValue>
    var extendsClause: string
    var implementsClause: string
    var ctorVars: seq<Node>
    var classFields: seq<Node>
    var methods: seq<Node>
    var otherBody: seq<Node>
    /** What construction raised, when it did not complete. */
    var thrown: Option<Compiled>

    ghost predicate Valid()
      reads this, visitor
    {
      visitor.Valid() && root.ClassNode?
      && (thrown.Some? ==> !thrown.value.Value?)
      && (thrown.None? ==> Grouped())
    }

    /** The four groups are the members' partition, and every member lies inside the class node. */
    ghost predicate Grouped()
      reads this
    {
      root.ClassNode? && Members(root.body).Success?
      && ctorVars == CtorVars(Members(root.body).value) && classFields == PlainFields(Members(root.body).value)
      && methods == Methods(Members(root.body).value) && otherBody == OtherMembers(Members(root.body).value)
      && Inside(ctorVars, root) && Inside(classFields, root) && Inside(methods, root) && Inside(otherBody, root)
      && (forall x | x in ctorVars :: x.VariableNode?) && (forall x | x in classFields :: x.VariableNode?)
      && (forall x | x in methods :: x.FunctionNode?)
    }

    /** The builder's constructor: visits the name, then reads the heritage clauses and splits the body. */
    constructor(visitor: JSCompiler, n: Tree)
      requires visitor.Valid() && n.ClassNode?
      modifies visitor
      ensures Valid() && this.visitor == visitor && root == n
      ensures accessModifiers == AccessTexts(n.access) && extendsClause == HeritageClause("extends", n.extendsTypes)
      ensures implementsClause == HeritageClause("implements", n.implementsTypes)
      ensures thrown.None? ==> visitor.scope == old(visitor.scope)
      ensures OptionCode(n.name, visitor.reserved).Some? ==>
                name == OptionCode(n.name, visitor.reserved).value
                && thrown == if Members(n.body).Failure? then Some(Thrown(Members(n.body).error)) else None
      decreases n, 2
    {
      var c := visitor.VisitClassName(n);
      this.visitor := visitor;
      root := n;
      name := if c.Value? then c.value else Undefined;
      accessModifiers := AccessTexts(n.access);
      extendsClause := HeritageClause("extends", n.extendsTypes);
      implementsClause := HeritageClause("implements", n.implementsTypes);
      ctorVars, classFields, methods, otherBody := [], [], [], [];
      var ms := Members(n.body);
      thrown := if !c.Value? then Some(c) else if ms.Failure? then Some(Thrown(ms.error)) else None;
      new;
      if thrown.None? {
        assert forall i | 0 <= i < |n.body| :: n.body[i] in Children(n);
        MembersBelow(n, n.body);
        GroupsInside(ms.value, n);
        ProcessBody(ms.value);
      }
    }

    /** `processBody`: each member, in order, joins the group its kind selects. */
    method ProcessBody(ms: seq<Node>)
      requires ctorVars == [] && classFields == [] && methods == [] && otherBody == []
      modifies this
      ensures ctorVars == CtorVars(ms) && classFields == PlainFields(ms)
      ensures methods == Methods(ms) && otherBody == OtherMembers(ms)
      ensures name == old(name) && accessModifiers == old(accessModifiers) && thrown == old(thrown)
      ensures extendsClause == old(extendsClause) && implementsClause == old(implementsClause)
    {
      for i := 0 to |ms|
        invariant ctorVars == CtorVars(ms[..i]) && classFields == PlainFields(ms[..i])
        invariant methods == Methods(ms[..i]) && otherBody == OtherMembers(ms[..i])
        invariant name == old(name) && accessModifiers == old(accessModifiers) && thrown == old(thrown)
        invariant extendsClause == old(extendsClause) && implementsClause == old(implementsClause)
      {
        var b := ms[i];
        assert ms[..i + 1] == ms[..i] + [b];
        PartitionAppend(ms[..i], b);
        if b.VariableNode? {
          ProcessVariable(b);
        } else if b.FunctionNode? {
          methods := methods + [b];
        } else {
          otherBody := otherBody + [b];
        }
      }
      assert ms[..|ms|] == ms;
    }

    /** `processVariable`: a variable with the `ctor` field modifier is a constructor field, any other a plain field. */
    method ProcessVariable(v: Node)
      requires v.VariableNode?
      modifies this
      ensures IsCtorVariable(v) ==> ctorVars == old(ctorVars) + [v] && classFields == old(classFields)
      ensures !IsCtorVariable(v) ==> classFields == old(classFields) + [v] && ctorVars == old(ctorVars)
      ensures methods == old(methods) && otherBody == old(otherBody)
      ensures name == old(name) && accessModifiers == old(accessModifiers) && thrown == old(thrown)
      ensures extendsClause == old(extendsClause) && implementsClause == old(implementsClause)
    {
      if "ctor" in FieldModifierNames(v.modifiers) {
        ctorVars := ctorVars + [v];
      } else {
        classFields := classFields + [v];
      }
    }

    /** `buildConstructor`: nothing without constructor fields; else, in variable scope, the names visited twice. */
    method BuildConstructor() returns (code: string)
      requires visitor.Valid() && Inside(ctorVars, root) && forall x | x in ctorVars :: x.VariableNode?
      modifies visitor
      ensures visitor.Valid() && visitor.scope == old(visitor.scope)
      ensures code == CtorCode(VariableNames(ctorVars, visitor.reserved), Privates(ctorVars))
    {
      if |ctorVars| == 0 {
        return "";
      }
      forall x | x in ctorVars
        ensures x.name.Some? ==> IsIdentifierNode(x.name.value)
      {
        assert WellFormed(x) && LocalShape(x);
      }
      visitor.PushScope(VariableScope);
      var params := visitor.VisitVariableNames(ctorVars);
      var fieldNames := visitor.VisitVariableNames(ctorVars);
      var _ := visitor.PopScope();
      code := CtorCode(fieldNames, Privates(ctorVars));
    }

    /** One plain field: the name, then the value when there is one, visited and printed. */
    method BuildField(f: Tree) returns (r: Compiled, ghost value: JsValue)
      requires visitor.Valid() && f.VariableNode? && f < root
      modifies visitor
      ensures visitor.Valid()
      ensures r.Value? ==> visitor.scope == old(visitor.scope) && r.value == Str(FieldText(f, value, visitor.reserved))
      decreases root, 0
    {
      ChildrenWellFormed(f);
      var fieldName := visitor.VisitName(f.name);
      var valueCode: Option<JsValue> := None;
      value := Undefined;
      if f.value.Some? {
        assert f.value.value in Children(f);
        var c := visitor.Visit(f.value.value);
        if !c.Value? {
          return c, Undefined;
        }
        valueCode := Some(c.value);
        value := c.value;
      }
      r := Value(Str(FieldCode(fieldName, HasModifier(f.modifiers, "private"), HasModifier(f.modifiers, "readonly"),
                               HasModifier(f.modifiers, "nullable"), valueCode)));
    }

    /** `buildFields`: in variable scope, the plain fields printed in order, one per line. */
    method BuildFields() returns (r: Compiled, ghost values: seq<JsValue>)
      requires visitor.Valid() && Inside(classFields, root) && forall x | x in classFields :: x.VariableNode?
      modifies visitor
      ensures visitor.Valid()
      ensures r.Value? ==> visitor.scope == old(visitor.scope) && |values| == |classFields|
      ensures r.Value? ==> r.value == Str(Join(FieldTexts(classFields, values, visitor.reserved), "\n"))
      decreases root, 1
    {
      var fields := classFields;
      var reserved := visitor.reserved;
      visitor.PushScope(VariableScope);
      var texts: seq<string> := [];
      values := [];
      for i := 0 to |fields|
        invariant visitor.Valid() && visitor.scope == [VariableScope] + old(visitor.scope)
        invariant |values| == i && |texts| == i
        invariant forall j | 0 <= j < i :: texts[j] == FieldText(fields[j], values[j], reserved)
      {
        var f := fields[i];
        assert f in fields;
        var c, v := BuildField(f);
        if !c.Value? {
          return c, values;
        }
        FieldTextsExtend(fields, values, texts, reserved, Template(c.value), v);
        texts := texts + [Template(c.value)];
        values := values + [v];
      }
      FieldTextsPointwise(fields, values, texts, reserved);
      var _ := visitor.PopScope();
      r := Value(Str(Join(texts, "\n")));
    }

    /** One method: the name (empty when there is none), the parameters and the body, visited and printed. */
    method BuildMethod(m: Tree) returns (r: Compiled, ghost body: seq<JsValue>)
      requires visitor.Valid() && m.FunctionNode? && m < root
      modifies visitor
      ensures visitor.Valid()
      ensures r.Value? ==> visitor.scope == old(visitor.scope) && |body| == |m.body|
      ensures r.Value? ==> r.value == Str(MethodText(m, body, visitor.reserved))
      decreases root, 0
    {
      var methodName, params := BuildMethodHead(m);
      ChildrenWellFormed(m);
      assert forall i | 0 <= i < |m.body| :: m.body[i] in Children(m);
      var b := visitor.VisitAll(m, m.body);
      if b.Stopped? {
        return b.reason, [];
      }
      body := b.values;
      r := Value(Str(MethodCode(m.isAsync, methodName, params, b.values)));
    }

    /** A method's name (empty when there is none) and then its parameters, visited. */
    method BuildMethodHead(m: Tree) returns (name: JsValue, params: seq<JsValue>)
      requires visitor.Valid() && m.FunctionNode?
      modifies visitor
      ensures visitor.Valid() && visitor.scope == old(visitor.scope)
      ensures name == MethodName(m.name, visitor.reserved) && params == ParamNames(m.params, visitor.reserved)
      decreases m, 2
    {
      MethodShape(m);
      ChildrenWellFormed(m);
      assert forall i | 0 <= i < |m.params| :: m.params[i] in Children(m);
      name := Str("");
      if m.name.Some? {
        name := visitor.VisitName(m.name);
      }
      params := visitor.VisitParams(m, m.params);
    }

    /** `buildMethods`: in method scope, the methods printed in order, one per line. */
    method BuildMethods() returns (r: Compiled, ghost bodies: seq<seq<JsValue>>)
      requires visitor.Valid() && Inside(methods, root) && forall x | x in methods :: x.FunctionNode?
      modifies visitor
      ensures visitor.Valid()
      ensures r.Value? ==> visitor.scope == old(visitor.scope) && |bodies| == |methods|
      ensures r.Value? ==> r.value == Str(Join(MethodTexts(methods, bodies, visitor.reserved), "\n"))
      decreases root, 1
    {
      var ms := methods;
      var reserved := visitor.reserved;
      visitor.PushScope(MethodScope);
      var texts: seq<string> := [];
      bodies := [];
      for i := 0 to |ms|
        invariant visitor.Valid() && visitor.scope == [MethodScope] + old(visitor.scope)
        invariant |bodies| == i && |texts| == i
        invariant forall j | 0 <= j < i :: texts[j] == MethodText(ms[j], bodies[j], reserved)
      {
        var m := ms[i];
        assert m in ms;
        var c, b := BuildMethod(m);
        if !c.Value? {
          return c, bodies;
        }
        MethodTextsExtend(ms, bodies, texts, reserved, Template(c.value), b);
        texts := texts + [Template(c.value)];
        bodies := bodies + [b];
      }
      MethodTextsPointwise(ms, bodies, texts, reserved);
      var _ := visitor.PopScope();
      r := Value(Str(Join(texts, "\n")));
    }

    /** `buildOtherBody`: the remaining members visited in order, one per line, in the current scope. */
    method BuildOtherBody() returns (r: Compiled, ghost others: seq<JsValue>)
      requires visitor.Valid() && Inside(otherBody, root)
      modifies visitor
      ensures visitor.Valid()
      ensures r.Value? ==> visitor.scope == old(visitor.scope) && |others| == |otherBody|
      ensures r.Value? ==> r.value == Str(Joined(others, "\n"))
      decreases root, 1
    {
      assert forall i | 0 <= i < |otherBody| :: otherBody[i] in otherBody;
      var o := visitor.VisitAll(root, otherBody);
      if o.Stopped? {
        return o.reason, [];
      }
      others := o.values;
      r := Value(Str(Joined(o.values, "\n")));
    }

    /** `build`: the fields, the constructor, the methods and the rest, each built in turn, inside the class text. */
    method Build() returns (r: Compiled, ghost fieldsCode: string, ghost methodsCode: string, ghost othersCode: string,
                            ghost values: seq<JsValue>, ghost bodies: seq<seq<JsValue>>, ghost others: seq<JsValue>)
      requires visitor.Valid() && Grouped()
      modifies visitor
      ensures visitor.Valid()
      ensures r.Value? ==> visitor.scope == old(visitor.scope)
      ensures r.Value? ==>
                r.value == Str(ClassCode(accessModifiers, name, extendsClause, implementsClause, fieldsCode,
                                         CtorCode(VariableNames(ctorVars, visitor.reserved), Privates(ctorVars)),
                                         methodsCode, othersCode))
      ensures r.Value? ==> |values| == |classFields| && |bodies| == |methods| && |others| == |otherBody|
      ensures r.Value? ==>
                && fieldsCode == Join(FieldTexts(classFields, values, visitor.reserved), "\n")
                && methodsCode == Join(MethodTexts(methods, bodies, visitor.reserved), "\n")
                && othersCode == Joined(others, "\n")
      decreases root, 2
    {
      fieldsCode, methodsCode, othersCode, values, bodies, others := "", "", "", [], [], [];
      var f, vs := BuildFields();
      if !f.Value? {
        return f, "", "", "", [], [], [];
      }
      var ctor := BuildConstructor();
      var m, bs := BuildMethods();
      if !m.Value? {
        return m, "", "", "", [], [], [];
      }
      var o, os := BuildOtherBody();
      if !o.Value? {
        return o, "", "", "", [], [], [];
      }
      values, bodies, others := vs, bs, os;
      fieldsCode, methodsCode, othersCode := Template(f.value), Template(m.value), Template(o.value);
      r := Value(Str(ClassCode(accessModifiers, name, extendsClause, implementsClause, Template(f.value), ctor,
                               Template(m.value), Template(o.value))));
    }
  }

  /** A class's text from its visited name and the printed fields, methods and other members. */
  function ClassText(n: Node, name: JsValue, fieldsCode: string, methodsCode: string, othersCode: string,
                     reserved: set<string>): string
    requires n.ClassNode? && Members(n.body).Success?
  {
    var ctors := CtorVars(Members(n.body).value);
    ClassCode(AccessTexts(n.access), name, HeritageClause("extends", n.extendsTypes),
              HeritageClause("implements", n.implementsTypes), fieldsCode,
              CtorCode(VariableNames(ctors, reserved), Privates(ctors)), methodsCode, othersCode)
  }

  /**
   * The printed parts of a class: its plain fields from their visited values, its methods from
   * their visited bodies and its other members' visits, each group one per line in body order.
   */
  ghost predicate ClassParts(n: Node, fieldsCode: string, methodsCode: string, othersCode: string,
                             values: seq<JsValue>, bodies: seq<seq<JsValue>>, others: seq<JsValue>,
                             reserved: set<string>)
  {
    n.ClassNode? && Members(n.body).Success?
    && var ms := Members(n.body).value;
    && |values| == |PlainFields(ms)| && |bodies| == |Methods(ms)| && |others| == |OtherMembers(ms)|
    && fieldsCode == Join(FieldTexts(PlainFields(ms), values, reserved), "\n")
    && methodsCode == Join(MethodTexts(Methods(ms), bodies, reserved), "\n")
    && othersCode == Joined(others, "\n")
  }

  /** The nodes lie inside `root` and are well formed. */
  ghost predicate Inside(ns: seq<Node>, root: Node)
  {
    forall x | x in ns :: x < root && WellFormed(x)
  }

  /** The groups keep their members' place inside the class and the shapes their kinds promise. */
  lemma GroupsInside(ms: seq<Node>, root: Node)
    requires Inside(ms, root)
    ensures Inside(CtorVars(ms), root) && Inside(PlainFields(ms), root)
    ensures Inside(Methods(ms), root) && Inside(OtherMembers(ms), root)
    ensures forall x | x in CtorVars(ms) :: x.VariableNode?
    ensures forall x | x in PlainFields(ms) :: x.VariableNode?
    ensures forall x | x in Methods(ms) :: x.FunctionNode?
  {
  }

  /** A well-formed function node's parameters are parameter nodes. */
  lemma MethodShape(x: Node)
    requires WellFormed(x) && x.FunctionNode?
    ensures IsMethodNode(x)
  {
    assert LocalShape(x);
  }

  /** A method member: a function node whose parameters are parameter nodes. */
  predicate IsMethodNode(m: Node)
  {
    m.FunctionNode? && forall i | 0 <= i < |m.params| :: m.params[i].ParameterNode?
  }

  /** The constructor fields' names, as their visits give them. */
  function VariableNames(vs: seq<Node>, reserved: set<string>): (r: seq<JsValue>)
    requires forall x | x in vs :: x.VariableNode?
    ensures |r| == |vs| && forall i | 0 <= i < |vs| :: r[i] == VisitedName(vs[i].name, reserved)
  {
    if |vs| == 0 then [] else [VisitedName(vs[0].name, reserved)] + VariableNames(vs[1..], reserved)
  }

  /** Which of the variables carry a `private` modifier of any kind. */
  function Privates(vs: seq<Node>): (r: seq<bool>)
    requires forall x | x in vs :: x.VariableNode?
    ensures |r| == |vs| && forall i | 0 <= i < |vs| :: r[i] == HasModifier(vs[i].modifiers, "private")
  {
    if |vs| == 0 then [] else [HasModifier(vs[0].modifiers, "private")] + Privates(vs[1..])
  }

  /** `f` applied to the elements at the same position of `xs` and `ys`, in order. */
  function Pairwise<A, B, C>(f: (A, B) -> C, xs: seq<A>, ys: seq<B>): (r: seq<C>)
    requires |ys| == |xs|
    ensures |r| == |xs|
  {
    if |xs| == 0 then []
    else
      var k := |xs| - 1;
      Pairwise(f, xs[..k], ys[..k]) + [f(xs[k], ys[k])]
  }

  lemma {:induction false} PairwiseAt<A, B, C>(f: (A, B) -> C, xs: seq<A>, ys: seq<B>, i: nat)
    requires |ys| == |xs| && i < |xs|
    ensures Pairwise(f, xs, ys)[i] == f(xs[i], ys[i])
    decreases |xs|
  {
    var k := |xs| - 1;
    if i < k {
      PairwiseAt(f, xs[..k], ys[..k], i);
      assert xs[..k][i] == xs[i] && ys[..k][i] == ys[i];
    }
  }

  /** A plain field printed from its modifiers, its visited name and, when it has a value, that value's visit. */
  function FieldText(f: Node, value: JsValue, reserved: set<string>): string
  {
    if f.VariableNode? then
      FieldCode(VisitedName(f.name, reserved), HasModifier(f.modifiers, "private"), HasModifier(f.modifiers, "readonly"),
                HasModifier(f.modifiers, "nullable"), if f.value.Some? then Some(value) else None)
    else ""
  }

  /** The fields printed in order, each from its own value's visit. */
  function FieldTexts(fs: seq<Node>, values: seq<JsValue>, reserved: set<string>): (r: seq<string>)
    requires |values| == |fs|
    ensures |r| == |fs|
  {
    Pairwise((x: Node, y: JsValue) => FieldText(x, y, reserved), fs, values)
  }

  /** The `i`-th printed field is the `i`-th field printed from its own value. */
  lemma FieldTextsAt(fs: seq<Node>, values: seq<JsValue>, reserved: set<string>, i: nat)
    requires |values| == |fs| && i < |fs|
    ensures FieldTexts(fs, values, reserved)[i] == FieldText(fs[i], values[i], reserved)
  {
    PairwiseAt((x: Node, y: JsValue) => FieldText(x, y, reserved), fs, values, i);
  }

  /** A text that prints the next field extends texts that print the fields before it. */
  lemma FieldTextsExtend(fs: seq<Node>, values: seq<JsValue>, texts: seq<string>, reserved: set<string>,
                         t: string, v: JsValue)
    requires |texts| == |values| < |fs| && t == FieldText(fs[|values|], v, reserved)
    requires forall j | 0 <= j < |values| :: texts[j] == FieldText(fs[j], values[j], reserved)
    ensures forall j | 0 <= j < |values| + 1 :: (texts + [t])[j] == FieldText(fs[j], (values + [v])[j], reserved)
  {
  }

  /** The printed fields are the texts that agree with them position by position. */
  lemma FieldTextsPointwise(fs: seq<Node>, values: seq<JsValue>, texts: seq<string>, reserved: set<string>)
    requires |values| == |fs| == |texts|
    requires forall j | 0 <= j < |fs| :: texts[j] == FieldText(fs[j], values[j], reserved)
    ensures texts == FieldTexts(fs, values, reserved)
  {
    forall j | 0 <= j < |fs|
      ensures texts[j] == FieldTexts(fs, values, reserved)[j]
    {
      FieldTextsAt(fs, values, reserved, j);
    }
  }

  /** A method's name: its visit, or the empty string when it has none. */
  function MethodName(name: Option<Node>, reserved: set<string>): JsValue
  {
    if name.Some? then VisitedName(name, reserved) else Str("")
  }

  /** A method printed from its visited name, parameters and body. */
  function MethodText(m: Node, body: seq<JsValue>, reserved: set<string>): string
  {
    if m.FunctionNode? then MethodCode(m.isAsync, MethodName(m.name, reserved), ParamNames(m.params, reserved), body)
    else ""
  }

  /** The methods printed in order, each from its own body's visit. */
  function MethodTexts(ms: seq<Node>, bodies: seq<seq<JsValue>>, reserved: set<string>): (r: seq<string>)
    requires |bodies| == |ms|
    ensures |r| == |ms|
  {
    Pairwise((x: Node, y: seq<JsValue>) => MethodText(x, y, reserved), ms, bodies)
  }

  /** The `i`-th printed method is the `i`-th method printed from its own body. */
  lemma MethodTextsAt(ms: seq<Node>, bodies: seq<seq<JsValue>>, reserved: set<string>, i: nat)
    requires |bodies| == |ms| && i < |ms|
    ensures MethodTexts(ms, bodies, reserved)[i] == MethodText(ms[i], bodies[i], reserved)
  {
    PairwiseAt((x: Node, y: seq<JsValue>) => MethodText(x, y, reserved), ms, bodies, i);
  }

  /** A text that prints the next method extends texts that print the methods before it. */
  lemma MethodTextsExtend(ms: seq<Node>, bodies: seq<seq<JsValue>>, texts: seq<string>, reserved: set<string>,
                          t: string, b: seq<JsValue>)
    requires |texts| == |bodies| < |ms| && t == MethodText(ms[|bodies|], b, reserved)
    requires forall j | 0 <= j < |bodies| :: texts[j] == MethodText(ms[j], bodies[j], reserved)
    ensures forall j | 0 <= j < |bodies| + 1 :: (texts + [t])[j] == MethodText(ms[j], (bodies + [b])[j], reserved)
  {
  }

  /** The printed methods are the texts that agree with them position by position. */
  lemma MethodTextsPointwise(ms: seq<Node>, bodies: seq<seq<JsValue>>, texts: seq<string>, reserved: set<string>)
    requires |bodies| == |ms| == |texts|
    requires forall j | 0 <= j < |ms| :: texts[j] == MethodText(ms[j], bodies[j], reserved)
    ensures texts == MethodTexts(ms, bodies, reserved)
  {
    forall j | 0 <= j < |ms|
      ensures texts[j] == MethodTexts(ms, bodies, reserved)[j]
    {
      MethodTextsAt(ms, bodies, reserved, j);
    }
  }

  /** The parameters' names as their visits give them. */
  function ParamNames(params: seq<Node>, reserved: set<string>): (r: seq<JsValue>)
    ensures |r| == |params|
    ensures forall i | 0 <= i < |params| && params[i].ParameterNode? :: r[i] == VisitedName(params[i].name, reserved)
  {
    if |params| == 0 then []
    else [if params[0].ParameterNode? then VisitedName(params[0].name, reserved) else Undefined]
         + ParamNames(params[1..], reserved)
  }
}
