/**
 * The closed set of node tags and the `_type` string each one carries.
 */
module AstTags {
  /** The node tags; `FractionNumber` is the extra tag the rule catalog and `visitNumber` use. */
  datatype NodeType =
    | FractionNumber | SimpleIdentifier | CompositeIdentifier | OctalNumber | BinaryNumber | HexNumber | IntegerNumber
    | FloatNumber | Function | Import | When | Class | Interface | If
    | Match | Variable | Parameter | TryCatch | Comment | ControlComment | Assignment
    | Program | List | Quote | Vector | Map | KeyValue | Export
    | TypeName | Type | UnionType | IntersectionType | FunctionType | SimpleType | GenericType
    | MapType | MapKeyType | MappedType | TypeMapping | FieldModifier | FunctionModifier | ParameterModifier
    | FunctionCarrying | FunctionCarryingLeft | FunctionCarryingRight | TypeDef | AccessModifier | Implements | Indexer
    | Extends | ConstraintImplements | ConstraintInherits | ConstraintIs | ConstraintHas | Await | For
    | ForEach | CompoundAssignment | While | MatchCase | AnyPattern | ListPattern | VectorPattern
    | MapPattern | MapPatternPair | IdentifierPattern | ConstantPattern | String | FormattedString | FormatExpression

  /** The string a node carries in `_type`. */
  function TagName(t: NodeType): string
  {
    match t
    case Program => "program"
    case List => "list"
    case Quote => "quote"
    case Vector => "vector"
    case Map => "map"
    case KeyValue => "key-value"
    case Import => "import"
    case Export => "export"
    case TypeName => "type-name"
    case Type => "type"
    case UnionType => "union-type"
    case IntersectionType => "intersection-type"
    case FunctionType => "function-type"
    case SimpleType => "simple-type"
    case GenericType => "generic-type"
    case MapType => "map-type"
    case MapKeyType => "map-key-type"
    case MappedType => "mapped-type"
    case TypeMapping => "type-mapping"
    case Variable => "variable"
    case FieldModifier => "field-modifier"
    case Function => "function"
    case FunctionModifier => "function-modifier"
    case Parameter => "parameter"
    case ParameterModifier => "parameter-modifier"
    case FunctionCarrying => "function-carrying"
    case FunctionCarryingLeft => "function-carrying-left"
    case FunctionCarryingRight => "function-carrying-right"
    case Class => "class"
    case TypeDef => "type-def"
    case Interface => "interface"
    case AccessModifier => "access-modifier"
    case Implements => "implements"
    case Indexer => "indexer"
    case Extends => "extends"
    case ConstraintImplements => "constraint-implements"
    case ConstraintInherits => "constraint-inherits"
    case ConstraintIs => "constraint-is"
    case ConstraintHas => "constraint-has"
    case Await => "await"
    case When => "when"
    case If => "if"
    case For => "for"
    case ForEach => "for-each"
    case TryCatch => "try-catch"
    case Assignment => "assignment"
    case CompoundAssignment => "compound-assignment"
    case While => "while"
    case Match => "match"
    case MatchCase => "match-case"
    case AnyPattern => "any-pattern"
    case ListPattern => "list-pattern"
    case VectorPattern => "vector-pattern"
    case MapPattern => "map-pattern"
    case MapPatternPair => "map-pattern-pair"
    case IdentifierPattern => "identifier-pattern"
    case ConstantPattern => "constant-pattern"
    case String => "string"
    case FormattedString => "formatted-string"
    case FormatExpression => "format-expression"
    case OctalNumber => "octal-number"
    case BinaryNumber => "binary-number"
    case HexNumber => "hex-number"
    case IntegerNumber => "integer-number"
    case FloatNumber => "float-number"
    case SimpleIdentifier => "simple-identifier"
    case CompositeIdentifier => "composite-identifier"
    case Comment => "comment"
    case ControlComment => "control-comment"
    case FractionNumber => "fraction-number"
  }

  /** Tags whose fields no modelled pass reads; their nodes keep only their AST-typed fields. */
  predicate IsOpaqueTag(t: NodeType)
  {
    t.Type? || t.FunctionType? || t.TypeDef? || t.TypeMapping? || t.MapKeyType?
    || t.FunctionModifier? || t.Implements? || t.Extends? || t.Indexer?
    || t.ConstraintImplements? || t.ConstraintInherits? || t.ConstraintIs?
    || t.ConstraintHas? || t.For? || t.ForEach? || t.While? || t.CompoundAssignment?
  }

  type OpaqueTag = t: NodeType | IsOpaqueTag(t) witness NodeType.Type


  predicate IsPatternTag(t: NodeType)
  {
    t.AnyPattern? || t.ListPattern? || t.VectorPattern? || t.MapPattern?
    || t.IdentifierPattern? || t.ConstantPattern?
  }

  predicate IsNumberTag(t: NodeType)
  {
    t.OctalNumber? || t.BinaryNumber? || t.HexNumber? || t.IntegerNumber?
    || t.FloatNumber? || t.FractionNumber?
  }

  predicate IsIdentifierTag(t: NodeType)
  {
    t.SimpleIdentifier? || t.CompositeIdentifier?
  }

  /**
   * The tags in seven blocks of ten, in declaration order: a proof about every
   * tag goes through the blocks one at a time.
   */
  function TagBlock(t: NodeType): (b: nat)
    ensures b < 7
  {
    match t
    case FractionNumber | SimpleIdentifier | CompositeIdentifier | OctalNumber | BinaryNumber
       | HexNumber | IntegerNumber | FloatNumber | Function | Import => 0
    case When | Class | Interface | If | Match
       | Variable | Parameter | TryCatch | Comment | ControlComment => 1
    case Assignment | Program | List | Quote | Vector
       | Map | KeyValue | Export | TypeName | Type => 2
    case UnionType | IntersectionType | FunctionType | SimpleType | GenericType
       | MapType | MapKeyType | MappedType | TypeMapping | FieldModifier => 3
    case FunctionModifier | ParameterModifier | FunctionCarrying | FunctionCarryingLeft | FunctionCarryingRight
       | TypeDef | AccessModifier | Implements | Indexer | Extends => 4
    case ConstraintImplements | ConstraintInherits | ConstraintIs | ConstraintHas | Await
       | For | ForEach | CompoundAssignment | While | MatchCase => 5
    case _ => 6
  }

  // ---- The lengths of the tag strings ----

  /** The length of a tag's string. */
  function TagLength(t: NodeType): nat
  {
    match t
    case Program => 7
    case List => 4
    case Quote => 5
    case Vector => 6
    case Map => 3
    case KeyValue => 9
    case Import => 6
    case Export => 6
    case TypeName => 9
    case Type => 4
    case UnionType => 10
    case IntersectionType => 17
    case FunctionType => 13
    case SimpleType => 11
    case GenericType => 12
    case MapType => 8
    case MapKeyType => 12
    case MappedType => 11
    case TypeMapping => 12
    case Variable => 8
    case FieldModifier => 14
    case Function => 8
    case FunctionModifier => 17
    case Parameter => 9
    case ParameterModifier => 18
    case FunctionCarrying => 17
    case FunctionCarryingLeft => 22
    case FunctionCarryingRight => 23
    case Class => 5
    case TypeDef => 8
    case Interface => 9
    case AccessModifier => 15
    case Implements => 10
    case Indexer => 7
    case Extends => 7
    case ConstraintImplements => 21
    case ConstraintInherits => 19
    case ConstraintIs => 13
    case ConstraintHas => 14
    case Await => 5
    case When => 4
    case If => 2
    case For => 3
    case ForEach => 8
    case TryCatch => 9
    case Assignment => 10
    case CompoundAssignment => 19
    case While => 5
    case Match => 5
    case MatchCase => 10
    case AnyPattern => 11
    case ListPattern => 12
    case VectorPattern => 14
    case MapPattern => 11
    case MapPatternPair => 16
    case IdentifierPattern => 18
    case ConstantPattern => 16
    case String => 6
    case FormattedString => 16
    case FormatExpression => 17
    case OctalNumber => 12
    case BinaryNumber => 13
    case HexNumber => 10
    case IntegerNumber => 14
    case FloatNumber => 12
    case SimpleIdentifier => 17
    case CompositeIdentifier => 20
    case Comment => 7
    case ControlComment => 15
    case FractionNumber => 15
  }

  /** Every tag's string has the tag's length. */
  lemma TagNameLength(t: NodeType)
    ensures |TagName(t)| == TagLength(t)
  {
    match t
    case Program => {}
    case List => {}
    case Quote => {}
    case Vector => {}
    case Map => {}
    case KeyValue => {}
    case Import => {}
    case Export => {}
    case TypeName => {}
    case Type => {}
    case UnionType => {}
    case IntersectionType => {}
    case FunctionType => {}
    case SimpleType => {}
    case GenericType => {}
    case MapType => {}
    case MapKeyType => {}
    case MappedType => {}
    case TypeMapping => {}
    case Variable => {}
    case FieldModifier => {}
    case Function => {}
    case FunctionModifier => {}
    case Parameter => {}
    case ParameterModifier => {}
    case FunctionCarrying => {}
    case FunctionCarryingLeft => {}
    case FunctionCarryingRight => {}
    case Class => {}
    case TypeDef => {}
    case Interface => {}
    case AccessModifier => {}
    case Implements => {}
    case Indexer => {}
    case Extends => {}
    case ConstraintImplements => {}
    case ConstraintInherits => {}
    case ConstraintIs => {}
    case ConstraintHas => {}
    case Await => {}
    case When => {}
    case If => {}
    case For => {}
    case ForEach => {}
    case TryCatch => {}
    case Assignment => {}
    case CompoundAssignment => {}
    case While => {}
    case Match => {}
    case MatchCase => {}
    case AnyPattern => {}
    case ListPattern => {}
    case VectorPattern => {}
    case MapPattern => {}
    case MapPatternPair => {}
    case IdentifierPattern => {}
    case ConstantPattern => {}
    case String => {}
    case FormattedString => {}
    case FormatExpression => {}
    case OctalNumber => {}
    case BinaryNumber => {}
    case HexNumber => {}
    case IntegerNumber => {}
    case FloatNumber => {}
    case SimpleIdentifier => {}
    case CompositeIdentifier => {}
    case Comment => {}
    case ControlComment => {}
    case FractionNumber => {}
  }

  /* The tag strings the rule catalog and the passes compare against each name exactly one tag. */

  lemma TagNamedSimpleIdentifier(t: NodeType)
    ensures TagName(t) == "simple-identifier" <==> t == SimpleIdentifier
  {
    TagNameLength(t);
  }

  lemma TagNamedCompositeIdentifier(t: NodeType)
    ensures TagName(t) == "composite-identifier" <==> t == CompositeIdentifier
  {
    TagNameLength(t);
  }

  lemma TagNamedFractionNumber(t: NodeType)
    ensures TagName(t) == "fraction-number" <==> t == FractionNumber
  {
    TagNameLength(t);
  }

  lemma TagNamedImport(t: NodeType)
    ensures TagName(t) == "import" <==> t == Import
  {
    TagNameLength(t);
  }

  lemma TagNamedVariable(t: NodeType)
    ensures TagName(t) == "variable" <==> t == Variable
  {
    TagNameLength(t);
  }

  lemma TagNamedFunction(t: NodeType)
    ensures TagName(t) == "function" <==> t == Function
  {
    TagNameLength(t);
  }

  lemma TagNamedTryCatch(t: NodeType)
    ensures TagName(t) == "try-catch" <==> t == TryCatch
  {
    TagNameLength(t);
  }

  lemma TagNamedParameter(t: NodeType)
    ensures TagName(t) == "parameter" <==> t == Parameter
  {
    TagNameLength(t);
  }

  lemma TagNamedClass(t: NodeType)
    ensures TagName(t) == "class" <==> t == Class
  {
    TagNameLength(t);
  }

  lemma TagNamedIf(t: NodeType)
    ensures TagName(t) == "if" <==> t == If
  {
    TagNameLength(t);
  }

  lemma TagNamedWhen(t: NodeType)
    ensures TagName(t) == "when" <==> t == When
  {
    TagNameLength(t);
  }

  lemma TagNamedMatch(t: NodeType)
    ensures TagName(t) == "match" <==> t == Match
  {
    TagNameLength(t);
  }

  lemma TagNamedList(t: NodeType)
    ensures TagName(t) == "list" <==> t == List
  {
    TagNameLength(t);
  }

  /** No tag is called "modifier". */
  lemma NoModifierTag(t: NodeType)
    ensures TagName(t) != "modifier"
  {
    TagNameLength(t);
  }
}

/**
 * The abstract syntax tree every pass reads: the closed set of node tags,
 * source locations, and one constructor per node shape.
 *
 * Nodes are immutable values, so the read-only `_type` and `_location`
 * members are simply the `Tag` of a node and its `loc` field.
 */
module Ast {
  import opened Wrappers
  import opened AstTags

  datatype Position = Position(offset: int, line: int, column: int)

  datatype Location = Location(source: Option<string>, start: Position, end: Position)

  /** The radix a non-float number literal was written in. */
  datatype Radix = Decimal | Hex | Binary | Octal

  /** Which of the three modifier node kinds a modifier is. */
  datatype ModifierKind = AccessKind | FieldKind | ParameterKind

  /** `source` of one entry of an import node: a file path string or a namespace identifier. */
  datatype ImportSource = ImportSource(file: Option<string>, namespace: Option<string>)

  datatype ImportSymbol = ImportSymbol(symbol: string, alias: Option<string>)

  datatype ImportEntry = ImportEntry(source: ImportSource, symbols: Option<seq<ImportSymbol>>)

  /** `filter` of a catch block: the bound name and the caught type. */
  datatype CatchFilter = CatchFilter(name: Node, filterType: Node)

  datatype CatchBlock = CatchBlock(filter: Option<CatchFilter>, body: Node)

  /**
   * One constructor per node shape. Optional fields are `Option`; an optional
   * list field whose absence every reader treats like an empty list is a `seq`.
   */
  /** A node array that may be `null`. */
  datatype NullableNodes = NullNodes | SomeNodes(items: seq<Node>)

  datatype Node =
    | ProgramNode(loc: Location, program: seq<Node>)
    | ListNode(loc: Location, nodes: seq<Node>)
    | QuoteNode(loc: Location, mode: string, content: Option<string>, quoted: NullableNodes)
    | VectorNode(loc: Location, values: seq<Node>)
    | MapNode(loc: Location, values: seq<Node>)
    | KeyValueNode(loc: Location, key: Node, entryValue: Node)
    | ImportNode(loc: Location, imports: seq<ImportEntry>)
    | ExportNode(loc: Location, names: seq<Node>)
    | TypeNameNode(loc: Location, typeName: string)
    | UnionTypeNode(loc: Location, types: seq<Node>)
    | IntersectionTypeNode(loc: Location, types: seq<Node>)
    | SimpleTypeNode(loc: Location, name: Option<Node>)
    | GenericTypeNode(loc: Location, name: Option<Node>, generic: Node, constraints: seq<Node>)
    | MapTypeNode(loc: Location, keys: seq<Node>)
    | MappedTypeNode(loc: Location, mapping: Node)
    | VariableNode(loc: Location, mutable: bool, name: Option<Node>, modifiers: seq<Node>,
                   typeAnn: Option<Node>, value: Option<Node>)
    | ModifierNode(loc: Location, kind: ModifierKind, modifier: string)
    | FunctionNode(loc: Location, name: Option<Node>, isAsync: bool, isExtern: bool,
                   modifiers: seq<Node>, params: seq<Node>, ret: Option<Node>, body: seq<Node>)
    | ParameterNode(loc: Location, name: Option<Node>, modifiers: seq<Node>, typeAnn: Option<Node>)
    | FunctionCarryingNode(loc: Location, identifier: Node, sequence: seq<Node>)
      /** A carrying step; the tag says left or right, `operator` is what the compiler reads. */
    | CarryingStepNode(loc: Location, rightTag: bool, operator: string, memberFunction: bool,
                       fn: Node, args: seq<Node>)
    | ClassNode(loc: Location, name: Option<Node>, generics: seq<Node>, access: seq<Node>,
                extendsTypes: seq<Node>, implementsTypes: seq<Node>, body: seq<Node>)
    | InterfaceNode(loc: Location, name: Option<Node>, generics: seq<Node>, access: seq<Node>,
                    implementsTypes: seq<Node>, body: seq<Node>)
    | TryCatchNode(loc: Location, tryBody: Node, catches: seq<CatchBlock>, finallyBody: Option<Node>)
    | AwaitNode(loc: Location, expression: Node)
    | AssignmentNode(loc: Location, assignable: Node, newValue: Node)
    | WhenNode(loc: Location, condition: Option<Node>, thenExprs: seq<Node>)
    | IfNode(loc: Location, condition: Option<Node>, thenBranch: Option<Node>, elseBranch: Option<Node>)
    | MatchNode(loc: Location, expression: Node, cases: seq<Node>)
    | MatchCaseNode(loc: Location, pattern: Node, caseBody: Node)
    | AnyPatternNode(loc: Location)
    | ListPatternNode(loc: Location, elements: seq<Node>)
    | VectorPatternNode(loc: Location, elements: seq<Node>)
    | MapPatternNode(loc: Location, pairs: seq<Node>)
    | MapPatternPairNode(loc: Location, key: Node, pattern: Node)
    | IdentifierPatternNode(loc: Location, identifier: Node)
    | ConstantPatternNode(loc: Location, constant: Node)
    | StringNode(loc: Location, text: string)
    | FormattedStringNode(loc: Location, segments: seq<Node>)
    | FormatExpressionNode(loc: Location, expression: Node)
    | NumberNode(loc: Location, radix: Radix, number: int)
      /** A float literal; `rendered` is its JavaScript `toString()`. */
    | FloatNumberNode(loc: Location, rendered: string)
    | FractionNumberNode(loc: Location, numerator: int, denominator: int)
    | SimpleIdentifierNode(loc: Location, id: string)
    | CompositeIdentifierNode(loc: Location, parts: seq<string>, id: string)
    | CommentNode(loc: Location, comment: string)
    | ControlCommentNode(loc: Location, mode: string, command: string, options: seq<string>)
    | OpaqueNode(loc: Location, tag: OpaqueTag, fields: seq<Node>)

  predicate IsPatternNode(n: Node)
  {
    n.AnyPatternNode? || n.ListPatternNode? || n.VectorPatternNode? || n.MapPatternNode?
    || n.IdentifierPatternNode? || n.ConstantPatternNode?
  }

  predicate IsNumberNode(n: Node)
  {
    n.NumberNode? || n.FloatNumberNode? || n.FractionNumberNode?
  }

  predicate IsIdentifierNode(n: Node)
  {
    n.SimpleIdentifierNode? || n.CompositeIdentifierNode?
  }


  /** `_type` of a node. */
  function Tag(n: Node): NodeType
  {
    match n
    case ProgramNode(_, _) => Program
    case ListNode(_, _) => List
    case QuoteNode(_, _, _, _) => Quote
    case VectorNode(_, _) => Vector
    case MapNode(_, _) => NodeType.Map
    case KeyValueNode(_, _, _) => KeyValue
    case ImportNode(_, _) => Import
    case ExportNode(_, _) => Export
    case TypeNameNode(_, _) => TypeName
    case UnionTypeNode(_, _) => UnionType
    case IntersectionTypeNode(_, _) => IntersectionType
    case SimpleTypeNode(_, _) => SimpleType
    case GenericTypeNode(_, _, _, _) => GenericType
    case MapTypeNode(_, _) => MapType
    case MappedTypeNode(_, _) => MappedType
    case VariableNode(_, _, _, _, _, _) => Variable
    case ModifierNode(_, kind, _) =>
      (match kind
       case AccessKind => AccessModifier
       case FieldKind => FieldModifier
       case ParameterKind => ParameterModifier)
    case FunctionNode(_, _, _, _, _, _, _, _) => Function
    case ParameterNode(_, _, _, _) => Parameter
    case FunctionCarryingNode(_, _, _) => FunctionCarrying
    case CarryingStepNode(_, right, _, _, _, _) =>
      if right then FunctionCarryingRight else FunctionCarryingLeft
    case ClassNode(_, _, _, _, _, _, _) => Class
    case InterfaceNode(_, _, _, _, _, _) => Interface
    case TryCatchNode(_, _, _, _) => TryCatch
    case AwaitNode(_, _) => Await
    case AssignmentNode(_, _, _) => Assignment
    case WhenNode(_, _, _) => When
    case IfNode(_, _, _, _) => If
    case MatchNode(_, _, _) => Match
    case MatchCaseNode(_, _, _) => MatchCase
    case AnyPatternNode(_) => AnyPattern
    case ListPatternNode(_, _) => ListPattern
    case VectorPatternNode(_, _) => VectorPattern
    case MapPatternNode(_, _) => MapPattern
    case MapPatternPairNode(_, _, _) => MapPatternPair
    case IdentifierPatternNode(_, _) => IdentifierPattern
    case ConstantPatternNode(_, _) => ConstantPattern
    case StringNode(_, _) => String
    case FormattedStringNode(_, _) => FormattedString
    case FormatExpressionNode(_, _) => FormatExpression
    case NumberNode(_, radix, _) =>
      (match radix
       case Decimal => IntegerNumber
       case Hex => HexNumber
       case Binary => BinaryNumber
       case Octal => OctalNumber)
    case FloatNumberNode(_, _) => FloatNumber
    case FractionNumberNode(_, _, _) => FractionNumber
    case SimpleIdentifierNode(_, _) => SimpleIdentifier
    case CompositeIdentifierNode(_, _, _) => CompositeIdentifier
    case CommentNode(_, _) => Comment
    case ControlCommentNode(_, _, _, _) => ControlComment
    case OpaqueNode(_, t, _) => t
  }

  /** The `_type` string of a node. */
  function TypeOf(n: Node): string
  {
    TagName(Tag(n))
  }

  /**
   * The tag groups and the node shapes agree: a pattern is exactly one of the
   * six pattern shapes, a number one of the three number shapes, and an
   * identifier either simple or composite.
   */
  lemma TagGroups(n: Node)
    ensures IsPatternTag(Tag(n)) <==> IsPatternNode(n)
    ensures IsNumberTag(Tag(n)) <==> IsNumberNode(n)
    ensures IsIdentifierTag(Tag(n)) <==> IsIdentifierNode(n)
  {
    if n.ProgramNode? {
    } else if n.ListNode? {
    } else if n.QuoteNode? {
    } else if n.VectorNode? {
    } else if n.MapNode? {
    } else if n.KeyValueNode? {
    } else if n.ImportNode? {
    } else if n.ExportNode? {
    } else if n.TypeNameNode? {
    } else if n.UnionTypeNode? {
    } else if n.IntersectionTypeNode? {
    } else if n.SimpleTypeNode? {
    } else if n.GenericTypeNode? {
    } else if n.MapTypeNode? {
    } else if n.MappedTypeNode? {
    } else if n.VariableNode? {
    } else if n.ModifierNode? {
    } else if n.FunctionNode? {
    } else if n.ParameterNode? {
    } else if n.FunctionCarryingNode? {
    } else if n.CarryingStepNode? {
    } else if n.ClassNode? {
    } else if n.InterfaceNode? {
    } else if n.TryCatchNode? {
    } else if n.AwaitNode? {
    } else if n.AssignmentNode? {
    } else if n.WhenNode? {
    } else if n.IfNode? {
    } else if n.MatchNode? {
    } else if n.MatchCaseNode? {
    } else if n.AnyPatternNode? {
    } else if n.ListPatternNode? {
    } else if n.VectorPatternNode? {
    } else if n.MapPatternNode? {
    } else if n.MapPatternPairNode? {
    } else if n.IdentifierPatternNode? {
    } else if n.ConstantPatternNode? {
    } else if n.StringNode? {
    } else if n.FormattedStringNode? {
    } else if n.FormatExpressionNode? {
    } else if n.NumberNode? {
    } else if n.FloatNumberNode? {
    } else if n.FractionNumberNode? {
    } else if n.SimpleIdentifierNode? {
    } else if n.CompositeIdentifierNode? {
    } else if n.CommentNode? {
    } else if n.ControlCommentNode? {
    } else if n.OpaqueNode? {
    }
  }




  function OptionList(o: Option<Node>): (r: seq<Node>)
    ensures |r| <= 1
    ensures o.Some? ==> r == [o.value]
  {
    if o.Some? then [o.value] else []
  }

  /**
   * The AST-valued fields of a node, in declaration order, with array fields
   * spread in index order and absent optional fields skipped. Records that are
   * not nodes (import entries, catch blocks and the try/finally body blocks) are
   * not AST nodes, so the walk does not enter them.
   */
  function Children(n: Node): (r: seq<Node>)
    ensures forall x | x in r :: x < n
  {
    match n
    case ProgramNode(_, program) => program
    case ListNode(_, nodes) => nodes
    case QuoteNode(_, _, _, quoted) =>
      (match quoted
       case NullNodes => []
       case SomeNodes(items) => items)
    case VectorNode(_, values) => values
    case MapNode(_, values) => values
    case KeyValueNode(_, key, value) => [key, value]
    case ImportNode(_, _) => []
    case ExportNode(_, names) => names
    case TypeNameNode(_, _) => []
    case UnionTypeNode(_, types) => types
    case IntersectionTypeNode(_, types) => types
    case SimpleTypeNode(_, name) => OptionList(name)
    case GenericTypeNode(_, name, generic, constraints) => OptionList(name) + [generic] + constraints
    case MapTypeNode(_, keys) => keys
    case MappedTypeNode(_, mapping) => [mapping]
    case VariableNode(_, _, name, modifiers, typeAnn, value) =>
      OptionList(name) + modifiers + OptionList(typeAnn) + OptionList(value)
    case ModifierNode(_, _, _) => []
    case FunctionNode(_, name, _, _, modifiers, params, ret, body) =>
      OptionList(name) + modifiers + params + OptionList(ret) + body
    case ParameterNode(_, name, modifiers, typeAnn) => OptionList(name) + modifiers + OptionList(typeAnn)
    case FunctionCarryingNode(_, identifier, sequence) => [identifier] + sequence
    case CarryingStepNode(_, _, _, _, fn, args) => [fn] + args
    case ClassNode(_, name, generics, access, extendsTypes, implementsTypes, body) =>
      OptionList(name) + generics + access + extendsTypes + implementsTypes + body
    case InterfaceNode(_, name, generics, access, implementsTypes, body) =>
      OptionList(name) + generics + access + implementsTypes + body
    case TryCatchNode(_, _, _, _) => []
    case AwaitNode(_, expression) => [expression]
    case AssignmentNode(_, assignable, value) => [assignable, value]
    case WhenNode(_, condition, thenExprs) => OptionList(condition) + thenExprs
    case IfNode(_, condition, thenBranch, elseBranch) =>
      OptionList(condition) + OptionList(thenBranch) + OptionList(elseBranch)
    case MatchNode(_, expression, cases) => [expression] + cases
    case MatchCaseNode(_, pattern, body) => [pattern, body]
    case AnyPatternNode(_) => []
    case ListPatternNode(_, elements) => elements
    case VectorPatternNode(_, elements) => elements
    case MapPatternNode(_, pairs) => pairs
    case MapPatternPairNode(_, key, pattern) => [key, pattern]
    case IdentifierPatternNode(_, identifier) => [identifier]
    case ConstantPatternNode(_, constant) => [constant]
    case StringNode(_, _) => []
    case FormattedStringNode(_, segments) => segments
    case FormatExpressionNode(_, expression) => [expression]
    case NumberNode(_, _, _) => []
    case FloatNumberNode(_, _) => []
    case FractionNumberNode(_, _, _) => []
    case SimpleIdentifierNode(_, _) => []
    case CompositeIdentifierNode(_, _, _) => []
    case CommentNode(_, _) => []
    case ControlCommentNode(_, _, _, _) => []
    case OpaqueNode(_, _, fields) => fields
  }

  /** The field types the node interfaces declare for the fields the passes read, checked at one node. */
  predicate LocalShape(n: Node)
  {
    match n
    case MapNode(_, values) => forall i | 0 <= i < |values| :: values[i].KeyValueNode?
    case KeyValueNode(_, key, _) => IsIdentifierNode(key) || key.StringNode?
    case VariableNode(_, _, name, modifiers, _, _) =>
      (name.Some? ==> IsIdentifierNode(name.value))
      && forall i | 0 <= i < |modifiers| :: modifiers[i].ModifierNode?
    case FunctionNode(_, name, _, _, modifiers, params, _, _) =>
      (name.Some? ==> IsIdentifierNode(name.value))
      && (forall i | 0 <= i < |modifiers| :: modifiers[i].ModifierNode?)
      && forall i | 0 <= i < |params| :: params[i].ParameterNode?
    case ParameterNode(_, name, modifiers, _) =>
      (name.Some? ==> IsIdentifierNode(name.value))
      && forall i | 0 <= i < |modifiers| :: modifiers[i].ModifierNode?
    case FunctionCarryingNode(_, identifier, sequence) =>
      IsIdentifierNode(identifier) && forall i | 0 <= i < |sequence| :: sequence[i].CarryingStepNode?
    case MatchNode(_, _, cases) => forall i | 0 <= i < |cases| :: cases[i].MatchCaseNode?
    case MatchCaseNode(_, pattern, _) => IsPatternNode(pattern)
    case ListPatternNode(_, elements) => forall i | 0 <= i < |elements| :: IsPatternNode(elements[i])
    case VectorPatternNode(_, elements) => forall i | 0 <= i < |elements| :: IsPatternNode(elements[i])
    case MapPatternNode(_, pairs) => forall i | 0 <= i < |pairs| :: pairs[i].MapPatternPairNode?
    case MapPatternPairNode(_, key, pattern) => (IsIdentifierNode(key) || key.StringNode?) && IsPatternNode(pattern)
    case IdentifierPatternNode(_, identifier) => IsIdentifierNode(identifier)
    case ConstantPatternNode(_, constant) => constant.StringNode? || IsInterfaceNumber(constant)
    case FormattedStringNode(_, segments) =>
      forall i | 0 <= i < |segments| :: segments[i].StringNode? || segments[i].FormatExpressionNode?
    case _ => true
  }

  /** The five number shapes of the `NumberNode` union (fractions are not among them). */
  predicate IsInterfaceNumber(n: Node)
  {
    n.NumberNode? || n.FloatNumberNode?
  }

  /** A tree that conforms to the declared field types everywhere. */
  predicate WellFormed(n: Node)
    decreases n
  {
    LocalShape(n)
    && forall i | 0 <= i < |Children(n)| ::
         assert Children(n)[i] in Children(n); WellFormed(Children(n)[i])
  }

  /** A node whose every part has the shape the parser gives it. */
  type Tree = n: Node | WellFormed(n) witness AnyPatternNode(Location(None, Position(0, 0, 0), Position(0, 0, 0)))

  /** A match holds one scrutinee and a list of cases, each a pattern with a body. */
  lemma MatchShape(n: Node)
    requires WellFormed(n) && n.MatchNode?
    ensures Children(n) == [n.expression] + n.cases
    ensures forall i | 0 <= i < |n.cases| ::
              n.cases[i].MatchCaseNode? && IsPatternNode(n.cases[i].pattern)
  {
    forall i | 0 <= i < |n.cases|
      ensures n.cases[i].MatchCaseNode? && IsPatternNode(n.cases[i].pattern)
    {
      assert Children(n)[1 + i] == n.cases[i];
    }
  }
  /** A constant pattern's payload is a string or one of the five number shapes. */
  lemma ConstantPatternShape(n: Node)
    requires WellFormed(n) && n.ConstantPatternNode?
    ensures n.constant.StringNode? || n.constant.NumberNode? || n.constant.FloatNumberNode?
    ensures Children(n) == [n.constant]
  {
  }

  /** A carrying node is a seed identifier followed by its steps, each tagged left or right. */
  lemma CarryingShape(n: Node)
    requires WellFormed(n) && n.FunctionCarryingNode?
    ensures IsIdentifierNode(n.identifier)
    ensures Children(n) == [n.identifier] + n.sequence
    ensures forall i | 0 <= i < |n.sequence| ::
              Tag(n.sequence[i]) == FunctionCarryingLeft || Tag(n.sequence[i]) == FunctionCarryingRight
  {
    forall i | 0 <= i < |n.sequence|
      ensures Tag(n.sequence[i]) == FunctionCarryingLeft || Tag(n.sequence[i]) == FunctionCarryingRight
    {
      assert n.sequence[i].CarryingStepNode?;
    }
  }
}
