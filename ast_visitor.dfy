/**
 * The visitor base: `visit` looks the node's tag up in a fixed table of
 * handlers. Undefined table entries and nodes without a tag fall back to an
 * error in the log, and every handler a visitor does not override only logs
 * that it was skipped.
 */
module BaseAstVisitor {
  import opened Wrappers
  import opened AstTags
  import opened Ast

  /** The compilation context's log levels. */
  datatype LogLevel = Verbose | Debug | Info | Warning | Error

  datatype LogEntry = LogEntry(level: LogLevel, message: string)

  /** The handler methods the table can select. */
  datatype Handler =
    | VisitTryCatch | VisitAssignment | VisitProgram | VisitList | VisitQuote | VisitVector | VisitMap
    | VisitKeyValue | VisitImport | VisitExport | VisitTypeName | VisitUnionType | VisitIntersectionType
    | VisitSimpleType | VisitGenericType | VisitMapType | VisitMappedType | VisitTypeMapping
    | VisitVariable | VisitFieldModifier | VisitFunction | VisitFunctionParameter | VisitParameterModifier
    | VisitFunctionCarryingLeft | VisitFunctionCarryingRight | VisitFunctionCarrying | VisitClass
    | VisitInterface | VisitAccessModifier | VisitImplements | VisitExtends | VisitConstraintImplements
    | VisitConstraintInherits | VisitConstraintIs | VisitConstraintHas | VisitAwait | VisitWhen | VisitIf
    | VisitMatch | VisitMatchCase | VisitAnyPattern | VisitListPattern | VisitVectorPattern
    | VisitMapPattern | VisitMapPatternPair | VisitIdentifierPattern | VisitConstantPattern | VisitString
    | VisitFormattedString | VisitFormatExpression | VisitNumber | VisitIdentifier | VisitComment
    | VisitControlComment

  /** The method's name, as the skip message prints it. */
  function HandlerName(h: Handler): string
  {
    match h
    case VisitTryCatch => "visitTryCatch"
    case VisitAssignment => "visitAssignment"
    case VisitProgram => "visitProgram"
    case VisitList => "visitList"
    case VisitQuote => "visitQuote"
    case VisitVector => "visitVector"
    case VisitMap => "visitMap"
    case VisitKeyValue => "visitKeyValue"
    case VisitImport => "visitImport"
    case VisitExport => "visitExport"
    case VisitTypeName => "visitTypeName"
    case VisitUnionType => "visitUnionType"
    case VisitIntersectionType => "visitIntersectionType"
    case VisitSimpleType => "visitSimpleType"
    case VisitGenericType => "visitGenericType"
    case VisitMapType => "visitMapType"
    case VisitMappedType => "visitMappedType"
    case VisitTypeMapping => "visitTypeMapping"
    case VisitVariable => "visitVariable"
    case VisitFieldModifier => "visitFieldModifier"
    case VisitFunction => "visitFunction"
    case VisitFunctionParameter => "visitFunctionParameter"
    case VisitParameterModifier => "visitParameterModifier"
    case VisitFunctionCarryingLeft => "visitFunctionCarryingLeft"
    case VisitFunctionCarryingRight => "visitFunctionCarryingRight"
    case VisitFunctionCarrying => "visitFunctionCarrying"
    case VisitClass => "visitClass"
    case VisitInterface => "visitInterface"
    case VisitAccessModifier => "visitAccessModifier"
    case VisitImplements => "visitImplements"
    case VisitExtends => "visitExtends"
    case VisitConstraintImplements => "visitConstraintImplements"
    case VisitConstraintInherits => "visitConstraintInherits"
    case VisitConstraintIs => "visitConstraintIs"
    case VisitConstraintHas => "visitConstraintHas"
    case VisitAwait => "visitAwait"
    case VisitWhen => "visitWhen"
    case VisitIf => "visitIf"
    case VisitMatch => "visitMatch"
    case VisitMatchCase => "visitMatchCase"
    case VisitAnyPattern => "visitAnyPattern"
    case VisitListPattern => "visitListPattern"
    case VisitVectorPattern => "visitVectorPattern"
    case VisitMapPattern => "visitMapPattern"
    case VisitMapPatternPair => "visitMapPatternPair"
    case VisitIdentifierPattern => "visitIdentifierPattern"
    case VisitConstantPattern => "visitConstantPattern"
    case VisitString => "visitString"
    case VisitFormattedString => "visitFormattedString"
    case VisitFormatExpression => "visitFormatExpression"
    case VisitNumber => "visitNumber"
    case VisitIdentifier => "visitIdentifier"
    case VisitComment => "visitComment"
    case VisitControlComment => "visitControlComment"
  }

  /** The dispatch table: `None` where the table holds `undefined` or has no entry. */
  function Route(t: NodeType): Option<Handler>
  {
    match t
    case Type => None
    case TypeDef => None
    case MapKeyType => None
    case FunctionType => None
    case FunctionModifier => None
    case For => None
    case ForEach => None
    case While => None
    case Indexer => None
    case TryCatch => Some(VisitTryCatch)
    case Assignment => Some(VisitAssignment)
    case CompoundAssignment => None
    case Program => Some(VisitProgram)
    case List => Some(VisitList)
    case Quote => Some(VisitQuote)
    case Vector => Some(VisitVector)
    case Map => Some(VisitMap)
    case KeyValue => Some(VisitKeyValue)
    case Import => Some(VisitImport)
    case Export => Some(VisitExport)
    case TypeName => Some(VisitTypeName)
    case UnionType => Some(VisitUnionType)
    case IntersectionType => Some(VisitIntersectionType)
    case SimpleType => Some(VisitSimpleType)
    case GenericType => Some(VisitGenericType)
    case MapType => Some(VisitMapType)
    case MappedType => Some(VisitMappedType)
    case TypeMapping => Some(VisitTypeMapping)
    case Variable => Some(VisitVariable)
    case FieldModifier => Some(VisitFieldModifier)
    case Function => Some(VisitFunction)
    case Parameter => Some(VisitFunctionParameter)
    case ParameterModifier => Some(VisitParameterModifier)
    case FunctionCarryingLeft => Some(VisitFunctionCarryingLeft)
    case FunctionCarryingRight => Some(VisitFunctionCarryingRight)
    case FunctionCarrying => Some(VisitFunctionCarrying)
    case Class => Some(VisitClass)
    case Interface => Some(VisitInterface)
    case AccessModifier => Some(VisitAccessModifier)
    case Implements => Some(VisitImplements)
    case Extends => Some(VisitExtends)
    case ConstraintImplements => Some(VisitConstraintImplements)
    case ConstraintInherits => Some(VisitConstraintInherits)
    case ConstraintIs => Some(VisitConstraintIs)
    case ConstraintHas => Some(VisitConstraintHas)
    case Await => Some(VisitAwait)
    case When => Some(VisitWhen)
    case If => Some(VisitIf)
    case Match => Some(VisitMatch)
    case MatchCase => Some(VisitMatchCase)
    case AnyPattern => Some(VisitAnyPattern)
    case ListPattern => Some(VisitListPattern)
    case VectorPattern => Some(VisitVectorPattern)
    case MapPattern => Some(VisitMapPattern)
    case MapPatternPair => Some(VisitMapPatternPair)
    case IdentifierPattern => Some(VisitIdentifierPattern)
    case ConstantPattern => Some(VisitConstantPattern)
    case String => Some(VisitString)
    case FormattedString => Some(VisitFormattedString)
    case FormatExpression => Some(VisitFormatExpression)
    case OctalNumber => Some(VisitNumber)
    case BinaryNumber => Some(VisitNumber)
    case HexNumber => Some(VisitNumber)
    case IntegerNumber => Some(VisitNumber)
    case FloatNumber => Some(VisitNumber)
    case SimpleIdentifier => Some(VisitIdentifier)
    case CompositeIdentifier => Some(VisitIdentifier)
    case Comment => Some(VisitComment)
    case ControlComment => Some(VisitControlComment)
    case FractionNumber => None
  }

  /**
   * The tags without a handler are the ten undefined entries and the missing
   * "fraction-number"; the tabled number tags, and only they, go to
   * `visitNumber`; both identifier tags, and only they, go to `visitIdentifier`.
   */
  lemma TableRoutes(t: NodeType)
    ensures Route(t).None? <==>
            t in {Type, TypeDef, MapKeyType, FunctionType, FunctionModifier, For, ForEach, While, Indexer,
                  CompoundAssignment, FractionNumber}
    ensures Route(t) == Some(VisitNumber) <==> IsNumberTag(t) && t != FractionNumber
    ensures Route(t) == Some(VisitIdentifier) <==> IsIdentifierTag(t)
  {
    match t
    case Program => {}
    case List => {}
    case Quote => {}
    case Vector => {}
    case Map => {}
    case KeyValue => {}
    case Import => {}
    case Export => {}
    case TypeName => {}
    case Type => {}
    case UnionType => {}
    case IntersectionType => {}
    case FunctionType => {}
    case SimpleType => {}
    case GenericType => {}
    case MapType => {}
    case MapKeyType => {}
    case MappedType => {}
    case TypeMapping => {}
    case Variable => {}
    case FieldModifier => {}
    case Function => {}
    case FunctionModifier => {}
    case Parameter => {}
    case ParameterModifier => {}
    case FunctionCarrying => {}
    case FunctionCarryingLeft => {}
    case FunctionCarryingRight => {}
    case Class => {}
    case TypeDef => {}
    case Interface => {}
    case AccessModifier => {}
    case Implements => {}
    case Indexer => {}
    case Extends => {}
    case ConstraintImplements => {}
    case ConstraintInherits => {}
    case ConstraintIs => {}
    case ConstraintHas => {}
    case Await => {}
    case When => {}
    case If => {}
    case For => {}
    case ForEach => {}
    case TryCatch => {}
    case Assignment => {}
    case CompoundAssignment => {}
    case While => {}
    case Match => {}
    case MatchCase => {}
    case AnyPattern => {}
    case ListPattern => {}
    case VectorPattern => {}
    case MapPattern => {}
    case MapPatternPair => {}
    case IdentifierPattern => {}
    case ConstantPattern => {}
    case String => {}
    case FormattedString => {}
    case FormatExpression => {}
    case OctalNumber => {}
    case BinaryNumber => {}
    case HexNumber => {}
    case IntegerNumber => {}
    case FloatNumber => {}
    case SimpleIdentifier => {}
    case CompositeIdentifier => {}
    case Comment => {}
    case ControlComment => {}
    case FractionNumber => {}
  }

  /** What `visit` is given: a node, or a value with no `_type` (shown as it renders in a template). */
  datatype Visitee = Untyped(rendered: string) | Typed(node: Node)

  /** A handler's result (`None` for undefined) and the log entries it wrote. */
  datatype Outcome<V> = Outcome(result: Option<V>, log: seq<LogEntry>)

  /** The entry logged for a value without a tag. */
  function UntypedError(rendered: string): LogEntry
  {
    LogEntry(Error, "Cannot process node without type '" + rendered + "'")
  }

  /** The entry logged for a tag without a handler. */
  function NoVisitorError(n: Node): LogEntry
  {
    LogEntry(Error, "No visitor implemented for node type '" + TypeOf(n) + "'")
  }

  /** `visit`: the selected handler's outcome, or an error entry and no result. */
  function Visit<V>(x: Visitee, handle: (Handler, Node) -> Outcome<V>): (o: Outcome<V>)
    ensures x.Untyped? ==> o == Outcome(None, [UntypedError(x.rendered)])
    ensures x.Typed? && Route(Tag(x.node)).None? ==> o == Outcome(None, [NoVisitorError(x.node)])
    ensures x.Typed? && Route(Tag(x.node)).Some? ==> o == handle(Route(Tag(x.node)).value, x.node)
  {
    match x
    case Untyped(rendered) => Outcome(None, [UntypedError(rendered)])
    case Typed(n) =>
      match Route(Tag(n))
      case None => Outcome(None, [NoVisitorError(n)])
      case Some(h) => handle(h, n)
  }

  /** A handler the visitor does not override: logs that it was skipped and returns undefined. */
  function Skipped<V>(h: Handler, n: Node): (o: Outcome<V>)
    ensures o.result.None? && |o.log| == 1 && o.log[0].level == Info
  {
    Outcome(None, [LogEntry(Info, "Method " + HandlerName(h) + " skipped")])
  }

  /** With only default handlers, every visit returns undefined and logs exactly one entry. */
  lemma DefaultVisit<V>(x: Visitee)
    ensures Visit<V>(x, Skipped).result.None?
    ensures |Visit<V>(x, Skipped).log| == 1
    ensures Visit<V>(x, Skipped).log[0].level == Info <==> x.Typed? && Route(Tag(x.node)).Some?
  {
  }
}
