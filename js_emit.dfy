/**
 * The string builders of the JavaScript code generator, as functions of the
 * already-rendered parts. Visit results are JavaScript values: a string,
 * `undefined` (what the default handlers return), or the record a match
 * case visit returns; a template literal and `Array.prototype.join` render
 * them differently.
 */
module JsCompilerEmit {
  import opened Wrappers
  import opened Text
  import opened AstTags
  import opened Ast
  import opened SymbolTable
  import Utils

  // ---- Visit results and how they print ----

  datatype JsValue = Undefined | Str(s: string) | Record

  /** `${v}` in a template literal. */
  function Template(v: JsValue): string
  {
    match v
    case Undefined => "undefined"
    case Str(s) => s
    case Record => "[object Object]"
  }

  /** How `join` prints one element: `undefined` becomes the empty string. */
  function JoinText(v: JsValue): string
  {
    if v.Undefined? then "" else Template(v)
  }

  /** `vs.join(sep)`. */
  function Joined(vs: seq<JsValue>, sep: string): string
  {
    Join(seq(|vs|, i requires 0 <= i < |vs| => JoinText(vs[i])), sep)
  }

  /** `!!v`: the empty string and `undefined` are falsy, records are truthy. */
  predicate Truthy(v: JsValue)
  {
    v.Record? || (v.Str? && v.s != "")
  }

  /** `vs.filter((x) => !!x)`. */
  function KeepTruthy(vs: seq<JsValue>): (r: seq<JsValue>)
    ensures |r| <= |vs|
    ensures forall i | 0 <= i < |r| :: Truthy(r[i])
    ensures forall v :: v in r <==> v in vs && Truthy(v)
  {
    if |vs| == 0 then []
    else
      var rest := KeepTruthy(vs[1..]);
      assert vs == [vs[0]] + vs[1..];
      (if Truthy(vs[0]) then [vs[0]] else []) + rest
  }

  // ---- The declaration formatters ----

  /** The scopes that declare a variable with `let`/`const`. */
  predicate KeywordScope(s: ScopeType)
  {
    s in {ProgramScope, FunctionScope, MethodScope, IfScope, InterfaceScope}
  }

  /** The scopes whose variable declaration ends with ";". */
  predicate StatementScope(s: ScopeType)
  {
    s in {ProgramScope, FunctionScope, MethodScope, ClassScope, InterfaceScope}
  }

  /** `formatVariable`: the declaration of a variable as the enclosing scope prints it; no scope throws. */
  function FormatVariable(scope: Option<ScopeType>, mutable: bool, name: JsValue, value: JsValue): (r: Result<string>)
    ensures scope.None? <==> r == Failure("undefined is not defined for variable formatting")
  {
    match scope
    case None => Failure("undefined is not defined for variable formatting")
    case Some(s) =>
      var kw := if mutable then "let" else "const";
      var va := if Truthy(value) then " = " + Template(value) else "";
      var nm := Template(name);
      Success(
        match s
        case ProgramScope => kw + " " + nm + va + ";"
        case FunctionScope => kw + " " + nm + va + ";"
        case MethodScope => kw + " " + nm + va + ";"
        case MatchScope => nm + va
        case WhenScope => nm + va
        case IfScope => kw + " " + nm + va
        case ClassScope => nm + va + ";"
        case InterfaceScope => kw + " " + nm + va + ";"
        case VariableScope => nm + va)
  }

  /**
   * The declaration is three independent choices: the keyword (in the
   * keyword scopes), the initializer (when the value is truthy) and the
   * terminating ";" (in the statement scopes).
   */
  lemma FormatVariableParts(s: ScopeType, mutable: bool, name: JsValue, value: JsValue)
    ensures FormatVariable(Some(s), mutable, name, value) == Success(
              (if KeywordScope(s) then (if mutable then "let " else "const ") else "")
              + Template(name)
              + (if Truthy(value) then " = " + Template(value) else "")
              + (if StatementScope(s) then ";" else ""))
  {
    var nm := Template(name);
    var va := if Truthy(value) then " = " + Template(value) else "";
    var kw := if mutable then "let" else "const";
    assert "" + nm == nm;
    assert nm + va + "" == nm + va;
    assert kw + " " + nm + va + "" == kw + " " + nm + va;
    assert (if mutable then "let " else "const ") == kw + " ";
  }

  /** `body.join(";\n")` framed by new lines, as every function layout but the interface one prints it. */
  function Block(body: seq<JsValue>): string
  {
    "{\n" + Joined(body, ";\n") + "\n}"
  }

  /** `formatFunction`: the enclosing scope picks a declaration, an arrow function or an assignment to the name. */
  function FormatFunction(scope: Option<ScopeType>, isAsync: bool, name: JsValue, params: string,
                          body: seq<JsValue>): (r: Result<string>)
    ensures scope.None? <==> r == Failure("undefined is not defined for function formatting")
  {
    match scope
    case None => Failure("undefined is not defined for function formatting")
    case Some(s) =>
      var kw := if isAsync then "async " else "";
      var arrowName := if Truthy(name) then "const " + Template(name) + " =" else "";
      var b := Joined(body, ";\n");
      Success(
        match s
        case ProgramScope => kw + "function " + (if name.Undefined? then "" else Template(name)) + "(" + params + ") {\n" + b + "\n}"
        case FunctionScope => arrowName + " " + kw + " (" + params + ") => {\n" + b + "\n}"
        case MethodScope => arrowName + " " + kw + " (" + params + ") => {\n" + b + "\n}"
        case MatchScope => "(" + Template(name) + " = " + kw + " (" + params + ") => {\n" + b + "\n})"
        case WhenScope => "(" + Template(name) + " = " + kw + " (" + params + ") => {\n" + b + "\n})"
        case IfScope => "(" + Template(name) + " = " + kw + " (" + params + ") => {\n" + b + "\n})"
        case ClassScope => kw + Template(name) + "(" + params + ") {\n" + b + "\n}"
        case InterfaceScope => kw + Template(name) + "(" + params + ");"
        case VariableScope => "(" + Template(name) + " = " + kw + " (" + params + ") => {\n" + b + "\n})")
  }

  /** A function in interface scope is a signature: its body is not printed. */
  lemma InterfaceSignature(isAsync: bool, name: JsValue, params: string, body: seq<JsValue>)
    ensures FormatFunction(Some(InterfaceScope), isAsync, name, params, body) ==
            FormatFunction(Some(InterfaceScope), isAsync, name, params, [])
    ensures var r := FormatFunction(Some(InterfaceScope), isAsync, name, params, body).value;
            |r| >= 2 && r[|r| - 2..] == ");"
  {
  }

  /** Function and method scopes share the arrow layout; match, when, if and variable scopes share the assignment layout. */
  lemma FunctionLayoutsShared(isAsync: bool, name: JsValue, params: string, body: seq<JsValue>)
    ensures FormatFunction(Some(FunctionScope), isAsync, name, params, body) ==
            FormatFunction(Some(MethodScope), isAsync, name, params, body)
    ensures var m := FormatFunction(Some(MatchScope), isAsync, name, params, body);
            m == FormatFunction(Some(WhenScope), isAsync, name, params, body)
            && m == FormatFunction(Some(IfScope), isAsync, name, params, body)
            && m == FormatFunction(Some(VariableScope), isAsync, name, params, body)
  {
  }

  /** In an expression scope the function is assigned to its name, the whole in parentheses. */
  lemma ExpressionScopeFunction(s: ScopeType, isAsync: bool, name: JsValue, params: string, body: seq<JsValue>)
    requires s in {MatchScope, WhenScope, IfScope, VariableScope}
    ensures FormatFunction(Some(s), isAsync, name, params, body).value ==
            "(" + Template(name) + " = " + (if isAsync then "async " else "") + " (" + params + ") => " + Block(body) + ")"
  {
  }

  /** In a program, a function is a `function` declaration, async exactly when asked. */
  lemma ProgramFunction(isAsync: bool, name: string, params: string, body: seq<JsValue>)
    ensures FormatFunction(Some(ProgramScope), isAsync, Str(name), params, body).value ==
            (if isAsync then "async " else "") + "function " + name + "(" + params + ") " + Block(body)
  {
  }

  // ---- Match patterns ----

  /** The pattern union and the shapes its sub-patterns, keys and constants have. */
  predicate IsPattern(p: Node)
    decreases p
  {
    match p
    case AnyPatternNode(_) => true
    case IdentifierPatternNode(_, identifier) => IsIdentifierNode(identifier)
    case ConstantPatternNode(_, constant) => constant.StringNode? || IsInterfaceNumber(constant)
    case ListPatternNode(_, elements) => forall i | 0 <= i < |elements| :: IsPattern(elements[i])
    case VectorPatternNode(_, elements) => forall i | 0 <= i < |elements| :: IsPattern(elements[i])
    case MapPatternNode(_, pairs) =>
      forall i | 0 <= i < |pairs| ::
        pairs[i].MapPatternPairNode? && (IsIdentifierNode(pairs[i].key) || pairs[i].key.StringNode?)
        && IsPattern(pairs[i].pattern)
    case _ => false
  }

  /** The parser's patterns are the well-typed ones. */
  lemma {:induction false} WellFormedPattern(p: Node)
    requires WellFormed(p) && IsPatternNode(p)
    ensures IsPattern(p)
    decreases p
  {
    match p
    case ListPatternNode(_, elements) =>
      forall i | 0 <= i < |elements| ensures IsPattern(elements[i]) {
        assert Children(p)[i] == elements[i];
        WellFormedPattern(elements[i]);
      }
    case VectorPatternNode(_, elements) =>
      forall i | 0 <= i < |elements| ensures IsPattern(elements[i]) {
        assert Children(p)[i] == elements[i];
        WellFormedPattern(elements[i]);
      }
    case MapPatternNode(_, pairs) =>
      forall i | 0 <= i < |pairs|
        ensures pairs[i].MapPatternPairNode? && (IsIdentifierNode(pairs[i].key) || pairs[i].key.StringNode?)
                && IsPattern(pairs[i].pattern)
      {
        assert Children(p)[i] == pairs[i];
        assert WellFormed(pairs[i]) && LocalShape(pairs[i]);
        assert Children(pairs[i])[1] == pairs[i].pattern;
        WellFormedPattern(pairs[i].pattern);
      }
    case _ =>
  }

  /** The sub-patterns in visiting order: list and vector elements, or the patterns of map pairs. */
  function SubPatterns(p: Node): (r: seq<Node>)
    requires IsPattern(p)
    ensures forall i | 0 <= i < |r| :: r[i] < p && IsPattern(r[i])
  {
    match p
    case ListPatternNode(_, elements) => elements
    case VectorPatternNode(_, elements) => elements
    case MapPatternNode(_, pairs) => PairPatterns(pairs)
    case _ => []
  }

  function PairPatterns(pairs: seq<Node>): (r: seq<Node>)
    requires forall i | 0 <= i < |pairs| :: pairs[i].MapPatternPairNode?
    ensures |r| == |pairs| && forall i | 0 <= i < |pairs| :: r[i] == pairs[i].pattern
  {
    if |pairs| == 0 then [] else [pairs[0].pattern] + PairPatterns(pairs[1..])
  }

  /** `findIdentifiersToDefine`'s walk: the raw `id` of every identifier pattern, depth first, in order. */
  function PatternIds(p: Node): seq<string>
    requires IsPattern(p)
    decreases p, 1
  {
    if p.IdentifierPatternNode? then [p.identifier.id] else PatternIdsFrom(p, 0)
  }

  function PatternIdsFrom(p: Node, i: nat): seq<string>
    requires IsPattern(p)
    decreases p, 0, |SubPatterns(p)| - i
  {
    if i >= |SubPatterns(p)| then [] else PatternIds(SubPatterns(p)[i]) + PatternIdsFrom(p, i + 1)
  }

  /** The walk over the cases' patterns, case by case. */
  function CaseIds(patterns: seq<Node>): seq<string>
    requires forall i | 0 <= i < |patterns| :: IsPattern(patterns[i])
  {
    if |patterns| == 0 then [] else PatternIds(patterns[0]) + CaseIds(patterns[1..])
  }

  /** `Array.from(new Set(xs))`: each value once, at its first occurrence. */
  function Dedup(xs: seq<string>): (r: seq<string>)
    ensures forall x :: x in r <==> x in xs
    ensures forall i, j | 0 <= i < j < |r| :: r[i] != r[j]
  {
    if |xs| == 0 then []
    else
      var d := Dedup(xs[..|xs| - 1]);
      assert xs == xs[..|xs| - 1] + [xs[|xs| - 1]];
      if xs[|xs| - 1] in d then d else d + [xs[|xs| - 1]]
  }

  /** Extending the input only appends: the order of first occurrences is kept. */
  lemma {:induction false} DedupPrefix(xs: seq<string>, ys: seq<string>)
    ensures Dedup(xs) <= Dedup(xs + ys)
    decreases |ys|
  {
    if |ys| == 0 {
      assert xs + ys == xs;
    } else {
      var zs := xs + ys[..|ys| - 1];
      DedupPrefix(xs, ys[..|ys| - 1]);
      assert (xs + ys)[..|xs + ys| - 1] == zs;
    }
  }

  /** Values that already occur once each pass through unchanged. */
  lemma {:induction false} DedupDistinct(xs: seq<string>)
    requires forall i, j | 0 <= i < j < |xs| :: xs[i] != xs[j]
    ensures Dedup(xs) == xs
  {
    if |xs| > 0 {
      var front := xs[..|xs| - 1];
      DedupDistinct(front);
      assert xs[|xs| - 1] !in front;
      assert xs == front + [xs[|xs| - 1]];
    }
  }

  /** `findIdentifiersToDefine` as written: the raw source ids, deduplicated. */
  function FindIdentifiersToDefine(patterns: seq<Node>): seq<string>
    requires forall i | 0 <= i < |patterns| :: IsPattern(patterns[i])
  {
    Dedup(CaseIds(patterns))
  }

  function EncodeAll(ids: seq<string>, reserved: set<string>): (r: seq<string>)
    ensures |r| == |ids| && forall i | 0 <= i < |ids| :: r[i] == Utils.EncodeIdentifier(ids[i], reserved)
  {
    seq(|ids|, i requires 0 <= i < |ids| => Utils.EncodeIdentifier(ids[i], reserved))
  }

  /** The names the match prelude declares: the ids as the identifier visits print them, deduplicated. */
  function IdentifiersToDefine(patterns: seq<Node>, reserved: set<string>): seq<string>
    requires forall i | 0 <= i < |patterns| :: IsPattern(patterns[i])
  {
    Dedup(EncodeAll(CaseIds(patterns), reserved))
  }

  // ---- Pattern conditions ----

  /**
   * The conjuncts the condition generators push, as a tree; `Render` prints
   * each the way the generators spell it.
   */
  datatype Cond =
    | AlwaysTrue
    | Bind(name: string, value: string, spaced: bool)
    | Equals(value: string, constant: string)
    | IsArray(value: string)
    | LengthIs(value: string, length: nat)
    | IsObject(value: string)
    | HasKey(key: string, value: string)
    | All(parts: seq<Cond>)

  function Render(c: Cond): string
    decreases c
  {
    match c
    case AlwaysTrue => "true"
    case Bind(name, value, spaced) =>
      if spaced then "(" + name + " = " + value + ", true)" else "(" + name + "=" + value + ",true)"
    case Equals(value, constant) => value + " === " + constant
    case IsArray(value) => "Array.isArray(" + value + ")"
    case LengthIs(value, n) => value + ".length===" + Text.Decimal(n)
    case IsObject(value) => "typeof " + value + "==='object'&&" + value + "!==null"
    case HasKey(key, value) => "'" + key + "' in " + value
    case All(parts) => Join(RenderList(parts), "&&")
  }

  function RenderList(parts: seq<Cond>): (r: seq<string>)
    ensures |r| == |parts|
    decreases parts
  {
    if |parts| == 0 then [] else [Render(parts[0])] + RenderList(parts[1..])
  }

  /** The names a condition assigns, in evaluation order. */
  function Assigned(c: Cond): seq<string>
    decreases c
  {
    match c
    case Bind(name, _, _) => [name]
    case All(parts) => AssignedList(parts)
    case _ => []
  }

  function AssignedList(parts: seq<Cond>): seq<string>
    decreases parts
  {
    if |parts| == 0 then [] else Assigned(parts[0]) + AssignedList(parts[1..])
  }

  lemma {:induction false} AssignedListAppend(a: seq<Cond>, b: seq<Cond>)
    ensures AssignedList(a + b) == AssignedList(a) + AssignedList(b)
  {
    if |a| == 0 {
      assert a + b == b;
    } else {
      assert (a + b)[1..] == a[1..] + b;
      AssignedListAppend(a[1..], b);
    }
  }

  /** How a constant pattern's and a map key's node print: a string literal in quotes, a number in its radix. */
  function LiteralCode(n: Node): string
    requires n.StringNode? || IsInterfaceNumber(n)
  {
    match n
    case StringNode(_, text) => "\"" + text + "\""
    case NumberNode(_, radix, value) => NumberCode(radix, value)
    case FloatNumberNode(_, rendered) => rendered
  }

  /** `visitNumber` on an integer literal: `toString` in its radix behind the radix's prefix. */
  function NumberCode(radix: Radix, value: int): string
  {
    match radix
    case Decimal => Text.Decimal(value)
    case Hex => "0x" + IntToString(value, 16)
    case Binary => "0b" + IntToString(value, 2)
    case Octal => "0o" + IntToString(value, 8)
  }

  /** A map key as the key visit prints it: an identifier through the encoding, a string in quotes. */
  function KeyCode(key: Node, reserved: set<string>): string
    requires IsIdentifierNode(key) || key.StringNode?
  {
    if IsIdentifierNode(key) then Utils.EncodeIdentifier(key.id, reserved) else LiteralCode(key)
  }

  /** `generateCondition`: the test one case's pattern makes of the matched value `v`. */
  function Condition(p: Node, v: string, reserved: set<string>): Cond
    requires IsPattern(p)
    decreases p, 3
  {
    match p
    case AnyPatternNode(_) => AlwaysTrue
    case IdentifierPatternNode(_, identifier) => Bind(Utils.EncodeIdentifier(identifier.id, reserved), v, false)
    case ConstantPatternNode(_, constant) => Equals(v, LiteralCode(constant))
    case ListPatternNode(_, _) => ListCondition(p, v, reserved)
    case VectorPatternNode(_, _) => ListCondition(p, v, reserved)
    case MapPatternNode(_, _) => MapCondition(p, v, reserved)
  }

  /** `generateElementCondition`: as `Condition`, but an any-pattern adds nothing and a binding is spaced. */
  function ElementCondition(p: Node, v: string, reserved: set<string>): Option<Cond>
    requires IsPattern(p)
    decreases p, 3
  {
    match p
    case AnyPatternNode(_) => None
    case IdentifierPatternNode(_, identifier) => Some(Bind(Utils.EncodeIdentifier(identifier.id, reserved), v, true))
    case ConstantPatternNode(_, constant) => Some(Equals(v, LiteralCode(constant)))
    case ListPatternNode(_, _) => Some(ListCondition(p, v, reserved))
    case VectorPatternNode(_, _) => Some(ListCondition(p, v, reserved))
    case MapPatternNode(_, _) => Some(MapCondition(p, v, reserved))
  }

  /** `if (condition) conditions.push(condition)`: a sub-condition joins only when it prints non-empty. */
  function Pushed(c: Option<Cond>): seq<Cond>
  {
    if c.Some? && Render(c.value) != "" then [c.value] else []
  }

  /** `generateListPatternCondition`, shared by vector patterns. */
  function ListCondition(p: Node, v: string, reserved: set<string>): Cond
    requires IsPattern(p) && (p.ListPatternNode? || p.VectorPatternNode?)
    decreases p, 2
  {
    All([IsArray(v), LengthIs(v, |p.elements|)] + ElementConditions(p, v, reserved, 0))
  }

  function ElementConditions(p: Node, v: string, reserved: set<string>, i: nat): seq<Cond>
    requires IsPattern(p) && (p.ListPatternNode? || p.VectorPatternNode?)
    decreases p, 1, |p.elements| - i
  {
    if i >= |p.elements| then []
    else Pushed(ElementCondition(p.elements[i], v + "[" + Text.Decimal(i) + "]", reserved))
         + ElementConditions(p, v, reserved, i + 1)
  }

  /** `generateMapPatternCondition`. */
  function MapCondition(p: Node, v: string, reserved: set<string>): Cond
    requires IsPattern(p) && p.MapPatternNode?
    decreases p, 2
  {
    All([IsObject(v)] + PairConditions(p, v, reserved, 0))
  }

  function PairConditions(p: Node, v: string, reserved: set<string>, i: nat): seq<Cond>
    requires IsPattern(p) && p.MapPatternNode?
    decreases p, 1, |p.pairs| - i
  {
    if i >= |p.pairs| then []
    else
      var pair := p.pairs[i];
      var key := KeyCode(pair.key, reserved);
      [HasKey(key, v)] + Pushed(ElementCondition(pair.pattern, v + "[" + key + "]", reserved))
      + PairConditions(p, v, reserved, i + 1)
  }

  // ---- What the conditions assign, and their shape ----

  lemma JoinHead(parts: seq<string>, sep: string)
    requires |parts| > 0
    ensures parts[0] <= Join(parts, sep)
  {
  }

  /** Tests that bind nothing assign nothing. */
  lemma {:induction false} NoBindings(parts: seq<Cond>)
    requires forall i | 0 <= i < |parts| :: !parts[i].Bind? && !parts[i].All?
    ensures AssignedList(parts) == []
  {
    if |parts| > 0 {
      NoBindings(parts[1..]);
    }
  }

  /** A generated sub-condition never prints empty, so the truthiness test drops only the any-pattern. */
  lemma PushedElement(p: Node, v: string, reserved: set<string>)
    requires IsPattern(p)
    ensures Pushed(ElementCondition(p, v, reserved)) ==
            (if p.AnyPatternNode? then [] else [ElementCondition(p, v, reserved).value])
  {
    var c := ElementCondition(p, v, reserved);
    if c.Some? && c.value.All? {
      var parts := RenderList(c.value.parts);
      assert parts[0] == Render(c.value.parts[0]);
      JoinHead(parts, "&&");
      assert Render(c.value) != "";
    }
  }

  /** The list of patterns with no any-pattern among them. */
  function NonAnyCount(ps: seq<Node>): (r: nat)
    ensures r <= |ps|
  {
    if |ps| == 0 then 0 else (if ps[0].AnyPatternNode? then 0 else 1) + NonAnyCount(ps[1..])
  }

  /** A pattern's condition assigns exactly the encoded ids of its identifier patterns, in the walk's order. */
  lemma {:induction false} ConditionAssigns(p: Node, v: string, reserved: set<string>)
    requires IsPattern(p)
    ensures Assigned(Condition(p, v, reserved)) == EncodeAll(PatternIds(p), reserved)
    decreases p, 3
  {
    match p
    case ListPatternNode(_, _) => ListConditionAssigns(p, v, reserved);
    case VectorPatternNode(_, _) => ListConditionAssigns(p, v, reserved);
    case MapPatternNode(_, _) => MapConditionAssigns(p, v, reserved);
    case _ =>
  }

  lemma {:induction false} ElementAssigns(p: Node, v: string, reserved: set<string>)
    requires IsPattern(p)
    ensures AssignedList(Pushed(ElementCondition(p, v, reserved))) == EncodeAll(PatternIds(p), reserved)
    decreases p, 3
  {
    PushedElement(p, v, reserved);
    match p
    case ListPatternNode(_, _) => ListConditionAssigns(p, v, reserved);
    case VectorPatternNode(_, _) => ListConditionAssigns(p, v, reserved);
    case MapPatternNode(_, _) => MapConditionAssigns(p, v, reserved);
    case _ =>
  }

  lemma {:induction false} ListConditionAssigns(p: Node, v: string, reserved: set<string>)
    requires IsPattern(p) && (p.ListPatternNode? || p.VectorPatternNode?)
    ensures Assigned(ListCondition(p, v, reserved)) == EncodeAll(PatternIds(p), reserved)
    decreases p, 2
  {
    var rest := ElementConditions(p, v, reserved, 0);
    var head := [IsArray(v), LengthIs(v, |p.elements|)];
    assert ListCondition(p, v, reserved) == All(head + rest);
    AssignedListAppend(head, rest);
    NoBindings(head);
    assert AssignedList(head + rest) == AssignedList(rest);
    ElementConditionsAssign(p, v, reserved, 0);
    assert PatternIds(p) == PatternIdsFrom(p, 0);
  }

  lemma {:induction false} ElementConditionsAssign(p: Node, v: string, reserved: set<string>, i: nat)
    requires IsPattern(p) && (p.ListPatternNode? || p.VectorPatternNode?)
    ensures AssignedList(ElementConditions(p, v, reserved, i)) == EncodeAll(PatternIdsFrom(p, i), reserved)
    decreases p, 1, |p.elements| - i
  {
    if i < |p.elements| {
      var e, w := p.elements[i], v + "[" + Text.Decimal(i) + "]";
      var here, rest := Pushed(ElementCondition(e, w, reserved)), ElementConditions(p, v, reserved, i + 1);
      assert ElementConditions(p, v, reserved, i) == here + rest;
      AssignedListAppend(here, rest);
      ElementAssigns(e, w, reserved);
      ElementConditionsAssign(p, v, reserved, i + 1);
      assert SubPatterns(p)[i] == e;
      assert PatternIdsFrom(p, i) == PatternIds(e) + PatternIdsFrom(p, i + 1);
      EncodeAllAppend(PatternIds(e), PatternIdsFrom(p, i + 1), reserved);
    }
  }

  lemma EncodeAllAppend(a: seq<string>, b: seq<string>, reserved: set<string>)
    ensures EncodeAll(a + b, reserved) == EncodeAll(a, reserved) + EncodeAll(b, reserved)
  {
  }

  lemma {:induction false} MapConditionAssigns(p: Node, v: string, reserved: set<string>)
    requires IsPattern(p) && p.MapPatternNode?
    ensures Assigned(MapCondition(p, v, reserved)) == EncodeAll(PatternIds(p), reserved)
    decreases p, 2
  {
    var rest := PairConditions(p, v, reserved, 0);
    assert MapCondition(p, v, reserved) == All([IsObject(v)] + rest);
    AssignedListAppend([IsObject(v)], rest);
    NoBindings([IsObject(v)]);
    assert AssignedList([IsObject(v)] + rest) == AssignedList(rest);
    PairConditionsAssign(p, v, reserved, 0);
    assert PatternIds(p) == PatternIdsFrom(p, 0);
  }

  lemma {:induction false} PairConditionsAssign(p: Node, v: string, reserved: set<string>, i: nat)
    requires IsPattern(p) && p.MapPatternNode?
    ensures AssignedList(PairConditions(p, v, reserved, i)) == EncodeAll(PatternIdsFrom(p, i), reserved)
    decreases p, 1, |p.pairs| - i
  {
    if i < |p.pairs| {
      var pair := p.pairs[i];
      var key := KeyCode(pair.key, reserved);
      var e, w := pair.pattern, v + "[" + key + "]";
      var here, rest := Pushed(ElementCondition(e, w, reserved)), PairConditions(p, v, reserved, i + 1);
      var front := [HasKey(key, v)] + here;
      assert PairConditions(p, v, reserved, i) == front + rest;
      AssignedListAppend(front, rest);
      AssignedListAppend([HasKey(key, v)], here);
      NoBindings([HasKey(key, v)]);
      assert AssignedList(front) == AssignedList(here);
      ElementAssigns(e, w, reserved);
      PairConditionsAssign(p, v, reserved, i + 1);
      assert SubPatterns(p)[i] == e;
      assert PatternIdsFrom(p, i) == PatternIds(e) + PatternIdsFrom(p, i + 1);
      EncodeAllAppend(PatternIds(e), PatternIdsFrom(p, i + 1), reserved);
    }
  }

  /** A list condition is the array test, the length test, then one conjunct per element that is not an any-pattern. */
  lemma ListConditionConjuncts(p: Node, v: string, reserved: set<string>)
    requires IsPattern(p) && (p.ListPatternNode? || p.VectorPatternNode?)
    ensures var c := Condition(p, v, reserved);
            c.All? && |c.parts| == 2 + NonAnyCount(p.elements)
            && c.parts[0] == IsArray(v) && c.parts[1] == LengthIs(v, |p.elements|)
  {
    ElementConjunctCount(p, v, reserved, 0);
    assert p.elements[0..] == p.elements;
  }

  lemma {:induction false} ElementConjunctCount(p: Node, v: string, reserved: set<string>, i: nat)
    requires IsPattern(p) && (p.ListPatternNode? || p.VectorPatternNode?) && i <= |p.elements|
    ensures |ElementConditions(p, v, reserved, i)| == NonAnyCount(p.elements[i..])
    decreases |p.elements| - i
  {
    if i < |p.elements| {
      PushedElement(p.elements[i], v + "[" + Text.Decimal(i) + "]", reserved);
      ElementConjunctCount(p, v, reserved, i + 1);
      assert p.elements[i..][1..] == p.elements[i + 1..];
    }
  }

  /** A map condition is the object test, then per pair its key test and, unless the pair's pattern is an any-pattern, its sub-condition. */
  lemma MapConditionConjuncts(p: Node, v: string, reserved: set<string>)
    requires IsPattern(p) && p.MapPatternNode?
    ensures var c := Condition(p, v, reserved);
            c.All? && |c.parts| == 1 + |p.pairs| + NonAnyCount(PairPatterns(p.pairs))
            && c.parts[0] == IsObject(v)
  {
    PairConjunctCount(p, v, reserved, 0);
    assert PairPatterns(p.pairs)[0..] == PairPatterns(p.pairs);
  }

  lemma {:induction false} PairConjunctCount(p: Node, v: string, reserved: set<string>, i: nat)
    requires IsPattern(p) && p.MapPatternNode? && i <= |p.pairs|
    ensures |PairConditions(p, v, reserved, i)| == (|p.pairs| - i) + NonAnyCount(PairPatterns(p.pairs)[i..])
    decreases |p.pairs| - i
  {
    if i < |p.pairs| {
      var key := KeyCode(p.pairs[i].key, reserved);
      PushedElement(p.pairs[i].pattern, v + "[" + key + "]", reserved);
      PairConjunctCount(p, v, reserved, i + 1);
      assert PairPatterns(p.pairs)[i..][1..] == PairPatterns(p.pairs)[i + 1..];
    }
  }

  /** A vector pattern compiles exactly like the list pattern with the same elements. */
  lemma VectorAsList(loc: Location, elements: seq<Node>, v: string, reserved: set<string>)
    requires IsPattern(VectorPatternNode(loc, elements))
    ensures IsPattern(ListPatternNode(loc, elements))
    ensures Condition(VectorPatternNode(loc, elements), v, reserved) ==
            Condition(ListPatternNode(loc, elements), v, reserved)
  {
    var vp, lp := VectorPatternNode(loc, elements), ListPatternNode(loc, elements);
    VectorElementsAsList(vp, lp, v, reserved, 0);
  }

  lemma {:induction false} VectorElementsAsList(vp: Node, lp: Node, v: string, reserved: set<string>, i: nat)
    requires IsPattern(vp) && IsPattern(lp) && vp.VectorPatternNode? && lp.ListPatternNode? && vp.elements == lp.elements
    ensures ElementConditions(vp, v, reserved, i) == ElementConditions(lp, v, reserved, i)
    decreases |vp.elements| - i
  {
    if i < |vp.elements| {
      VectorElementsAsList(vp, lp, v, reserved, i + 1);
    }
  }

  /**
   * A string key prints in quotes and the key test quotes it once more:
   * `{"a" _}` tests for a property whose name is `"a"`, quotes included.
   */
  lemma StringKeyTestedQuoted(loc: Location, text: string, v: string, reserved: set<string>)
    ensures var p := MapPatternNode(loc, [MapPatternPairNode(loc, StringNode(loc, text), AnyPatternNode(loc))]);
            IsPattern(p) && Condition(p, v, reserved) == All([IsObject(v), HasKey("\"" + text + "\"", v)])
  {
    var p := MapPatternNode(loc, [MapPatternPairNode(loc, StringNode(loc, text), AnyPatternNode(loc))]);
    var key := "\"" + text + "\"";
    assert KeyCode(StringNode(loc, text), reserved) == key;
    PushedElement(AnyPatternNode(loc), v + "[" + key + "]", reserved);
    assert PairConditions(p, v, reserved, 1) == [];
    assert PairConditions(p, v, reserved, 0) == [HasKey(key, v)];
  }

  // ---- The match expression ----

  /** One case of the chain: `(cond) ? (body) :`. */
  function CaseCode(condition: string, body: JsValue): string
  {
    "(" + condition + ") ? (" + Template(body) + ") :"
  }

  /** The reference reading of the chain: right-nested conditionals ending in `undefined`. */
  function Chain(conditions: seq<string>, bodies: seq<JsValue>): string
    requires |conditions| == |bodies|
  {
    if |conditions| == 0 then "undefined"
    else "(" + conditions[0] + ") ? (" + Template(bodies[0]) + ") : " + Chain(conditions[1..], bodies[1..])
  }

  function CaseCodes(conditions: seq<string>, bodies: seq<JsValue>): (r: seq<string>)
    requires |conditions| == |bodies|
    ensures |r| == |conditions| && forall i | 0 <= i < |r| :: r[i] == CaseCode(conditions[i], bodies[i])
  {
    if |conditions| == 0 then [] else [CaseCode(conditions[0], bodies[0])] + CaseCodes(conditions[1..], bodies[1..])
  }

  /** `ifExprs.join(" ") + " undefined"` is the right-nested chain, cases in source order. */
  lemma {:induction false} ChainJoined(conditions: seq<string>, bodies: seq<JsValue>)
    requires |conditions| == |bodies|
    ensures (if |conditions| == 0 then "" else Join(CaseCodes(conditions, bodies), " ") + " ") + "undefined"
            == Chain(conditions, bodies)
  {
    if |conditions| > 0 {
      var cs := CaseCodes(conditions, bodies);
      ChainJoined(conditions[1..], bodies[1..]);
      if |conditions| > 1 {
        assert cs[1..] == CaseCodes(conditions[1..], bodies[1..]);
      }
    }
  }

  /** The rendered conditions of the cases' patterns against the match variable. */
  function CaseConditions(patterns: seq<Node>, matchVar: string, reserved: set<string>): (r: seq<string>)
    requires forall i | 0 <= i < |patterns| :: IsPattern(patterns[i])
    ensures |r| == |patterns|
    ensures forall i | 0 <= i < |patterns| :: r[i] == Render(Condition(patterns[i], matchVar, reserved))
  {
    if |patterns| == 0 then []
    else [Render(Condition(patterns[0], matchVar, reserved))] + CaseConditions(patterns[1..], matchVar, reserved)
  }

  /** The prelude declaring the given names, one `let x;` per line. */
  function Declarations(names: seq<string>): string
  {
    Join(seq(|names|, i requires 0 <= i < |names| => "let " + names[i] + ";"), "\n")
  }

  /** `${ifExprs.join(" ")} undefined`: with at least one case, the right-nested chain. */
  function MatchReturn(conditions: seq<string>, bodies: seq<JsValue>): (r: string)
    requires |conditions| == |bodies|
    ensures |conditions| > 0 ==> r == Chain(conditions, bodies)
  {
    ChainJoined(conditions, bodies);
    assert " " + "undefined" == " undefined";
    Join(CaseCodes(conditions, bodies), " ") + " undefined"
  }

  /** The code of a match from the declared names, the return expression and the matched value. */
  function MatchFrame(matchVar: string, declared: seq<string>, returned: string, matchVal: JsValue): string
  {
    "(function (" + matchVar + ") { " + Declarations(declared) + "\n return " + returned + "; })(" + Template(matchVal) + ")"
  }

  /** `visitMatch` as written: the prelude declares the raw ids. */
  function MatchCodeAsWritten(matchVar: string, matchVal: JsValue, patterns: seq<Node>, bodies: seq<JsValue>,
                              reserved: set<string>): string
    requires |patterns| == |bodies| && forall i | 0 <= i < |patterns| :: IsPattern(patterns[i])
  {
    MatchFrame(matchVar, FindIdentifiersToDefine(patterns),
               MatchReturn(CaseConditions(patterns, matchVar, reserved), bodies), matchVal)
  }

  /** `visitMatch` with the prelude declaring the names the conditions assign. */
  function MatchCode(matchVar: string, matchVal: JsValue, patterns: seq<Node>, bodies: seq<JsValue>,
                     reserved: set<string>): string
    requires |patterns| == |bodies| && forall i | 0 <= i < |patterns| :: IsPattern(patterns[i])
  {
    MatchFrame(matchVar, IdentifiersToDefine(patterns, reserved),
               MatchReturn(CaseConditions(patterns, matchVar, reserved), bodies), matchVal)
  }

  /** When every id is printed as written, the prelude as written is the corrected one. */
  lemma MatchCodeAgrees(matchVar: string, matchVal: JsValue, patterns: seq<Node>, bodies: seq<JsValue>,
                        reserved: set<string>)
    requires |patterns| == |bodies| && forall i | 0 <= i < |patterns| :: IsPattern(patterns[i])
    requires forall x | x in CaseIds(patterns) :: Utils.EncodeIdentifier(x, reserved) == x
    ensures MatchCodeAsWritten(matchVar, matchVal, patterns, bodies, reserved) ==
            MatchCode(matchVar, matchVal, patterns, bodies, reserved)
  {
    var ids := CaseIds(patterns);
    assert EncodeAll(ids, reserved) == ids by {
      forall i | 0 <= i < |ids|
        ensures EncodeAll(ids, reserved)[i] == ids[i]
      {
        assert ids[i] in ids;
      }
    }
  }

  /** The names all the cases' conditions assign, case by case. */
  function CasesAssigned(patterns: seq<Node>, v: string, reserved: set<string>): seq<string>
    requires forall i | 0 <= i < |patterns| :: IsPattern(patterns[i])
  {
    if |patterns| == 0 then [] else Assigned(Condition(patterns[0], v, reserved)) + CasesAssigned(patterns[1..], v, reserved)
  }

  lemma {:induction false} CasesAssignedIds(patterns: seq<Node>, v: string, reserved: set<string>)
    requires forall i | 0 <= i < |patterns| :: IsPattern(patterns[i])
    ensures CasesAssigned(patterns, v, reserved) == EncodeAll(CaseIds(patterns), reserved)
  {
    if |patterns| > 0 {
      ConditionAssigns(patterns[0], v, reserved);
      CasesAssignedIds(patterns[1..], v, reserved);
      EncodeAllAppend(PatternIds(patterns[0]), CaseIds(patterns[1..]), reserved);
    }
  }

  /** Every name a case's condition assigns is declared by the prelude, and every declared name is assigned somewhere. */
  lemma MatchDeclaresAssigned(patterns: seq<Node>, v: string, reserved: set<string>)
    requires forall i | 0 <= i < |patterns| :: IsPattern(patterns[i])
    ensures forall x :: x in CasesAssigned(patterns, v, reserved) <==> x in IdentifiersToDefine(patterns, reserved)
  {
    CasesAssignedIds(patterns, v, reserved);
  }

  /** As written, a name that needs escaping is declared raw but assigned encoded: the binding of `a-` assigns the undeclared `a2d`. */
  lemma UndeclaredBinding(loc: Location, reserved: set<string>)
    requires "a2d" !in reserved
    ensures var p := IdentifierPatternNode(loc, SimpleIdentifierNode(loc, "a-"));
            IsPattern(p)
            && Assigned(Condition(p, "v", reserved)) == ["a2d"]
            && FindIdentifiersToDefine([p]) == ["a-"]
            && "a2d" !in FindIdentifiersToDefine([p])
  {
    var p := IdentifierPatternNode(loc, SimpleIdentifierNode(loc, "a-"));
    BindingAssignsEncoded(loc, reserved);
    SinglePatternIds(p);
    assert |"a2d"| != |"a-"|;
  }

  lemma BindingAssignsEncoded(loc: Location, reserved: set<string>)
    requires "a2d" !in reserved
    ensures var p := IdentifierPatternNode(loc, SimpleIdentifierNode(loc, "a-"));
            IsPattern(p) && Assigned(Condition(p, "v", reserved)) == ["a2d"]
  {
    Utils.EncodeCollides(reserved);
  }

  /** With the correction the same pattern declares `a2d`. */
  lemma DeclaredBinding(loc: Location, reserved: set<string>)
    requires "a2d" !in reserved
    ensures var p := IdentifierPatternNode(loc, SimpleIdentifierNode(loc, "a-"));
            IsPattern(p) && IdentifiersToDefine([p], reserved) == ["a2d"]
  {
    var p := IdentifierPatternNode(loc, SimpleIdentifierNode(loc, "a-"));
    SinglePatternIds(p);
    EncodedSingle(reserved);
    DedupSingle("a2d");
  }

  lemma EncodedSingle(reserved: set<string>)
    requires "a2d" !in reserved
    ensures EncodeAll(["a-"], reserved) == ["a2d"]
  {
    Utils.EncodeCollides(reserved);
    var e := EncodeAll(["a-"], reserved);
    assert |e| == 1 && e[0] == "a2d";
  }

  lemma DedupSingle(x: string)
    ensures Dedup([x]) == [x]
  {
    assert [x][..0] == [];
  }

  lemma SinglePatternIds(p: Node)
    requires p.IdentifierPatternNode? && IsPattern(p)
    ensures CaseIds([p]) == [p.identifier.id] && FindIdentifiersToDefine([p]) == [p.identifier.id]
  {
    assert CaseIds([p]) == PatternIds(p) + CaseIds([]);
    DedupSingle(p.identifier.id);
  }

  // ---- Function carrying ----

  /** One step of a carrying chain, with its function and arguments already visited. */
  datatype Step = Step(operator: string, member: bool, fn: JsValue, args: seq<JsValue>)

  /** How one step rewrites the code so far; an unknown operator leaves it alone. */
  function ApplyStep(code: JsValue, step: Step): (r: JsValue)
    ensures step.operator !in {"carrying-left", "carrying-right"} ==> r == code
    ensures step.operator in {"carrying-left", "carrying-right"} && step.member ==>
              r == Str(Template(code) + "." + Template(step.fn) + "(" + Joined(step.args, ",") + ")")
  {
    var fn := Template(step.fn);
    var a := Joined(step.args, ",");
    if step.operator == "carrying-left" then
      if step.member then Str(Template(code) + "." + fn + "(" + a + ")")
      else Str(fn + "(" + Template(code) + (if |step.args| > 0 then "," + a else "") + ")")
    else if step.operator == "carrying-right" then
      if step.member then Str(Template(code) + "." + fn + "(" + a + ")")
      else Str(fn + "(" + a + (if |step.args| > 0 then "," else "") + Template(code) + ")")
    else code
  }

  /** The steps applied to the seed, first step innermost. */
  function Carry(code: JsValue, steps: seq<Step>): JsValue
    decreases |steps|
  {
    if |steps| == 0 then code else Carry(ApplyStep(code, steps[0]), steps[1..])
  }

  /** Carrying is a left fold: a chain split in two runs the second part on the first part's result. */
  lemma {:induction false} CarryAppend(code: JsValue, a: seq<Step>, b: seq<Step>)
    ensures Carry(code, a + b) == Carry(Carry(code, a), b)
    decreases |a|
  {
    if |a| == 0 {
      assert a + b == b;
    } else {
      assert (a + b)[1..] == a[1..] + b;
      CarryAppend(ApplyStep(code, a[0]), a[1..], b);
    }
  }

  /** One more step applies to the code carried so far. */
  lemma CarryLast(code: JsValue, steps: seq<Step>, s: Step)
    ensures Carry(code, steps + [s]) == ApplyStep(Carry(code, steps), s)
  {
    CarryAppend(code, steps, [s]);
    assert Carry(Carry(code, steps), [s]) == Carry(ApplyStep(Carry(code, steps), s), []);
  }

  /** A free step puts the carried code first (left) or last (right) among the arguments. */
  lemma FreeStepPlacesCode(code: JsValue, fn: JsValue, args: seq<JsValue>)
    requires !code.Undefined?
    ensures Template(ApplyStep(code, Step("carrying-left", false, fn, args))) ==
            Template(fn) + "(" + Joined([code] + args, ",") + ")"
    ensures Template(ApplyStep(code, Step("carrying-right", false, fn, args))) ==
            Template(fn) + "(" + Joined(args + [code], ",") + ")"
  {
    FreeLeftStep(code, fn, args);
    FreeRightStep(code, fn, args);
  }

  lemma FreeLeftStep(code: JsValue, fn: JsValue, args: seq<JsValue>)
    requires !code.Undefined?
    ensures Template(ApplyStep(code, Step("carrying-left", false, fn, args))) ==
            Template(fn) + "(" + Joined([code] + args, ",") + ")"
  {
    var f, t, a := Template(fn), Template(code), Joined(args, ",");
    var more := if |args| > 0 then "," + a else "";
    JoinedCons(code, args, ",");
    assert Joined([code] + args, ",") == t + more;
    assert ApplyStep(code, Step("carrying-left", false, fn, args)) == Str(f + "(" + t + more + ")");
    assert f + "(" + t + more + ")" == f + "(" + (t + more) + ")";
  }

  lemma FreeRightStep(code: JsValue, fn: JsValue, args: seq<JsValue>)
    requires !code.Undefined?
    ensures Template(ApplyStep(code, Step("carrying-right", false, fn, args))) ==
            Template(fn) + "(" + Joined(args + [code], ",") + ")"
  {
    var f, t, a := Template(fn), Template(code), Joined(args, ",");
    var front := if |args| > 0 then a + "," else "";
    OperatorsDiffer();
    JoinedSnoc(args, code, ",");
    assert Joined(args + [code], ",") == front + t;
    assert a + (if |args| > 0 then "," else "") == front;
    assert ApplyStep(code, Step("carrying-right", false, fn, args)) ==
           Str(f + "(" + a + (if |args| > 0 then "," else "") + t + ")");
    assert f + "(" + a + (if |args| > 0 then "," else "") + t + ")" == f + "(" + (front + t) + ")";
  }

  /** The two operator names differ in their tenth character. */
  lemma OperatorsDiffer()
    ensures "carrying-left" != "carrying-right"
  {
    assert "carrying-left"[9] == 'l' && "carrying-right"[9] == 'r';
  }

  lemma JoinedCons(v: JsValue, vs: seq<JsValue>, sep: string)
    ensures Joined([v] + vs, sep) == JoinText(v) + (if |vs| > 0 then sep + Joined(vs, sep) else "")
  {
    var all := seq(|[v] + vs|, i requires 0 <= i < |[v] + vs| => JoinText(([v] + vs)[i]));
    var tail := seq(|vs|, i requires 0 <= i < |vs| => JoinText(vs[i]));
    assert all[1..] == tail;
  }

  lemma JoinedSnoc(vs: seq<JsValue>, v: JsValue, sep: string)
    ensures Joined(vs + [v], sep) == (if |vs| > 0 then Joined(vs, sep) + sep else "") + JoinText(v)
  {
    var all := seq(|vs + [v]|, i requires 0 <= i < |vs + [v]| => JoinText((vs + [v])[i]));
    var front := seq(|vs|, i requires 0 <= i < |vs| => JoinText(vs[i]));
    if |vs| > 0 {
      assert all == front + [JoinText(v)];
      JoinAppend(front, JoinText(v), sep);
    }
  }

  /** `undefined` joins as "", so values that are all `undefined` leave only the separators:
      `[undefined, undefined].join(" ")` is `" "`. */
  lemma {:induction false} UndefinedJoined(vs: seq<JsValue>, sep: char)
    requires forall i | 0 <= i < |vs| :: vs[i].Undefined?
    ensures Joined(vs, [sep]) == Repeat(sep, if |vs| == 0 then 0 else |vs| - 1)
    decreases |vs|
  {
    if |vs| > 0 {
      JoinedCons(vs[0], vs[1..], [sep]);
      assert [vs[0]] + vs[1..] == vs;
      if |vs| > 1 {
        UndefinedJoined(vs[1..], sep);
      }
    }
  }

  /** `x |> f |> g` with free left steps and no arguments: `g(f(x))`. */
  lemma PipelineNests(x: string, f: string, g: string)
    ensures Carry(Str(x), [Step("carrying-left", false, Str(f), []), Step("carrying-left", false, Str(g), [])])
            == Str(g + "(" + f + "(" + x + "))")
  {
    var s1 := Step("carrying-left", false, Str(f), []);
    var s2 := Step("carrying-left", false, Str(g), []);
    assert Joined([], ",") == "";
    var y := Str(f + "(" + x + ")");
    assert ApplyStep(Str(x), s1) == y;
    assert ApplyStep(y, s2) == Str(g + "(" + f + "(" + x + "))");
    assert [s1, s2][1..] == [s2];
    assert Carry(y, [s2]) == Carry(ApplyStep(y, s2), []);
  }

  // ---- Lists, conditionals ----

  /** `visitList` when the head is an identifier: a known function is called, a known class constructed, anything else called only when given arguments. */
  function IdentifierCall(callee: string, args: seq<JsValue>, functions: seq<JsValue>, classes: seq<JsValue>,
                          variables: seq<JsValue>): (r: string)
    ensures Str(callee) in functions ==> r == callee + "(" + Joined(args, ",") + ")"
    ensures Str(callee) !in functions && Str(callee) in classes ==> r == "new " + callee + "(" + Joined(args, ",") + ")"
    ensures Str(callee) !in functions && Str(callee) !in classes ==>
              r == (if |args| == 0 then callee else callee + "(" + Joined(args, ",") + ")")
  {
    var call := callee + "(" + Joined(args, ",") + ")";
    if Str(callee) in functions then call
    else if Str(callee) in classes then "new " + call
    else if Str(callee) in variables then (if |args| == 0 then callee else call)
    else if |args| == 0 then callee
    else call
  }

  /** `visitList` with any other head: a comma expression inside a variable, statements elsewhere. */
  function OtherCall(callee: JsValue, args: seq<JsValue>, inVariable: bool): string
  {
    if inVariable then "(" + Template(callee) + (if |args| > 0 then "," else "") + Joined(args, ",") + ")"
    else Template(callee) + (if |args| > 0 then ";\n" else "") + Joined(args, ";\n")
  }

  /** With another head, the head comes first and the arguments follow in order, like one more argument. */
  lemma OtherCallSequence(callee: JsValue, args: seq<JsValue>)
    requires !callee.Undefined?
    ensures OtherCall(callee, args, true) == "(" + Joined([callee] + args, ",") + ")"
    ensures OtherCall(callee, args, false) == Joined([callee] + args, ";\n")
  {
    JoinedCons(callee, args, ",");
    JoinedCons(callee, args, ";\n");
  }

  /** The scopes in which `if` is an expression. */
  predicate ExpressionScope(s: Option<ScopeType>)
  {
    s.Some? && s.value in {VariableScope, WhenScope, MatchScope}
  }

  /** `visitIf` from the visited parts, `elseCode` present iff the node has an else branch. */
  function IfCode(outer: Option<ScopeType>, condition: JsValue, thenCode: JsValue, elseCode: Option<JsValue>): string
  {
    var e := if elseCode.Some? then Template(elseCode.value) else "undefined";
    if !ExpressionScope(outer) then
      "if (" + Template(condition) + ") {\n" + Template(thenCode) + "\n}"
      + (if elseCode.Some? then " else {\n" + e + "\n}" else "")
    else "(" + Template(condition) + ") ? (" + Template(thenCode) + ") : (" + e + ")"
  }

  /** `if` is a conditional expression exactly in variable, when and match scope, and a statement elsewhere. */
  lemma IfForm(outer: Option<ScopeType>, condition: JsValue, thenCode: JsValue, elseCode: Option<JsValue>)
    ensures var r := IfCode(outer, condition, thenCode, elseCode);
            |r| >= 4 && (r[..4] == "if (" <==> !ExpressionScope(outer))
  {
    var r := IfCode(outer, condition, thenCode, elseCode);
    if ExpressionScope(outer) {
      assert r[0] == '(';
    }
  }

  /** A missing else branch yields `undefined` in the expression form. */
  lemma IfWithoutElse(outer: Option<ScopeType>, condition: JsValue, thenCode: JsValue)
    requires ExpressionScope(outer)
    ensures IfCode(outer, condition, thenCode, None) == IfCode(outer, condition, thenCode, Some(Undefined))
  {
  }

  /** `visitWhen` from the visited parts: a conditional with `undefined` otherwise inside a variable, an `if` statement elsewhere. */
  function WhenCode(inVariable: bool, condition: JsValue, exprs: seq<JsValue>): (r: string)
    ensures inVariable ==> |r| >= 12 && r[|r| - 12..] == " : undefined"
  {
    if inVariable then "(" + Template(condition) + ") ? (" + Joined(exprs, ", ") + ") : undefined"
    else "if (" + Template(condition) + ") {\n" + Joined(exprs, ";\n") + "\n}"
  }

  /** `visitString`: the text between double quotes. */
  function StringCode(text: string): (r: string)
    ensures |r| == |text| + 2 && r[0] == '"' && r[|r| - 1] == '"' && r[1..|r| - 1] == text
  {
    "\"" + text + "\""
  }
}
