/**
 * The chunk-building helpers of the source-map code generator. A source-map
 * node is its original position plus a list of chunks, each a string or a
 * nested node; the helpers drop falsy chunks and pick the chunk layout of a
 * declaration from the enclosing scope.
 */
module JsSourceHelpers {
  import opened Wrappers
  import opened AstTags
  import opened Ast
  import opened SymbolTable

  /** A chunk argument: a string, a nested node, or `undefined`. */
  datatype Chunk = Text(text: string) | Sub(node: SourceNode) | Absent

  /** A source-map node: the generated code's origin and its chunks. */
  datatype SourceNode = SourceNode(line: int, column: int, source: Option<string>, chunks: seq<Chunk>)

  /** `!!x` on a chunk argument: the empty string and `undefined` are falsy, nodes are objects. */
  predicate Truthy(c: Chunk)
  {
    c.Sub? || (c.Text? && c.text != "")
  }

  /** `chunks.filter((x) => !!x)`. */
  function KeepTruthy(chunks: seq<Chunk>): (r: seq<Chunk>)
    ensures |r| <= |chunks|
    ensures forall i | 0 <= i < |r| :: Truthy(r[i])
  {
    if |chunks| == 0 then []
    else (if Truthy(chunks[0]) then [chunks[0]] else []) + KeepTruthy(chunks[1..])
  }

  lemma {:induction false} KeepTruthyAppend(a: seq<Chunk>, b: seq<Chunk>)
    ensures KeepTruthy(a + b) == KeepTruthy(a) + KeepTruthy(b)
  {
    if |a| == 0 {
      assert a + b == b;
    } else {
      assert (a + b)[1..] == a[1..] + b;
      KeepTruthyAppend(a[1..], b);
    }
  }

  /** The filter keeps exactly the truthy chunks. */
  lemma {:induction false} KeepTruthyMembers(chunks: seq<Chunk>, c: Chunk)
    ensures c in KeepTruthy(chunks) <==> c in chunks && Truthy(c)
  {
    if |chunks| > 0 {
      KeepTruthyMembers(chunks[1..], c);
      assert chunks == [chunks[0]] + chunks[1..];
    }
  }

  /** A list of truthy chunks passes unchanged, in order. */
  lemma {:induction false} KeepTruthyIdentity(chunks: seq<Chunk>)
    requires forall i | 0 <= i < |chunks| :: Truthy(chunks[i])
    ensures KeepTruthy(chunks) == chunks
  {
    if |chunks| > 0 {
      KeepTruthyIdentity(chunks[1..]);
    }
  }

  /** `joinArray`: `value` between neighbouring elements, no leading or trailing copy. */
  function JoinArray<T>(items: seq<T>, value: T): (r: seq<T>)
    ensures |items| == 0 ==> r == []
    ensures |items| > 0 ==> |r| == 2 * |items| - 1
  {
    if |items| <= 1 then items else [items[0], value] + JoinArray(items[1..], value)
  }

  /** The items sit at the even positions of the join, in order, and the separator at the odd ones. */
  lemma {:induction false} JoinArrayPositions<T>(items: seq<T>, value: T)
    ensures var r := JoinArray(items, value);
            (forall i | 0 <= i < |items| :: r[2 * i] == items[i]) &&
            (forall i | 0 <= i < |items| - 1 :: r[2 * i + 1] == value)
  {
    if |items| > 1 {
      var rest := JoinArray(items[1..], value);
      JoinArrayPositions(items[1..], value);
      var r := [items[0], value] + rest;
      forall i | 1 <= i < |items|
        ensures r[2 * i] == items[i]
      {
        assert r[2 * i] == rest[2 * (i - 1)];
      }
      forall i | 1 <= i < |items| - 1
        ensures r[2 * i + 1] == value
      {
        assert r[2 * i + 1] == rest[2 * (i - 1) + 1];
      }
    }
  }

  /** Joining adds only copies of the separator. */
  lemma {:induction false} JoinArrayMembers<T>(items: seq<T>, value: T, x: T)
    requires x != value
    ensures x in JoinArray(items, value) <==> x in items
  {
    if |items| > 1 {
      JoinArrayMembers(items[1..], value, x);
      assert JoinArray(items, value) == [items[0], value] + JoinArray(items[1..], value);
      assert items == [items[0]] + items[1..];
    }
  }

  /** `createSourceNode`: the node's start line, its start column minus one, its source, and the truthy chunks in order. */
  function CreateSourceNode(loc: Location, chunks: seq<Chunk>): (r: SourceNode)
    ensures r.line == loc.start.line && r.column == loc.start.column - 1 && r.source == loc.source
    ensures r.chunks == KeepTruthy(chunks)
  {
    SourceNode(loc.start.line, loc.start.column - 1, loc.source, KeepTruthy(chunks))
  }

  /** The scopes whose variable layout starts with the `let`/`const` keyword. */
  predicate KeywordScope(scope: ScopeType)
  {
    scope in {ProgramScope, FunctionScope, MethodScope, IfScope, InterfaceScope}
  }

  function VariableError(): string
  {
    "undefined is not defined for variable formatting"
  }

  function FunctionError(): string
  {
    "undefined is not defined for function formatting"
  }

  /** The keyword node of a variable: `let ` when it is mutable, `const ` otherwise. */
  function VariableKeyword(loc: Location, mutable: bool): SourceNode
  {
    CreateSourceNode(loc, [Text(if mutable then "let " else "const ")])
  }

  /** `va`: ` = ` and the value when there is one. */
  function ValueChunks(value: Option<SourceNode>): seq<Chunk>
  {
    if value.Some? then [Text(" = "), Sub(value.value)] else []
  }

  /** The chunks before the value: the keyword node in keyword scopes, then the name. */
  function VariableHead(s: ScopeType, loc: Location, mutable: bool, name: Chunk): seq<Chunk>
  {
    if KeywordScope(s) then [Sub(VariableKeyword(loc, mutable)), name] else [name]
  }

  /** `formatVariable`: the head, then the value chunks. */
  function FormatVariable(scope: Option<ScopeType>, loc: Location, mutable: bool, name: Chunk,
                          value: Option<SourceNode>): (r: Result<SourceNode>)
    ensures scope.None? <==> r == Failure(VariableError())
    ensures r.Success? ==> r.value.line == loc.start.line && r.value.column == loc.start.column - 1
  {
    match scope
    case None => Failure(VariableError())
    case Some(s) => Success(CreateSourceNode(loc, VariableHead(s, loc, mutable, name) + ValueChunks(value)))
  }

  /** With a truthy name no chunk of a variable's layout is dropped. */
  lemma VariableChunks(s: ScopeType, loc: Location, mutable: bool, name: Chunk, value: Option<SourceNode>)
    requires Truthy(name)
    ensures FormatVariable(Some(s), loc, mutable, name, value).value.chunks ==
            VariableHead(s, loc, mutable, name) + ValueChunks(value)
  {
    var head := VariableHead(s, loc, mutable, name);
    var va := ValueChunks(value);
    KeepTruthyIdentity(va);
    KeepTruthyIdentity(head);
    KeepTruthyAppend(head, va);
  }

  /** The keyword comes first exactly in keyword scopes, and says `let ` exactly for a mutable variable. */
  lemma FormatVariableKeyword(s: ScopeType, loc: Location, mutable: bool, name: Chunk, value: Option<SourceNode>)
    requires Truthy(name)
    ensures FormatVariable(Some(s), loc, mutable, name, value).Success?
    ensures var chunks := FormatVariable(Some(s), loc, mutable, name, value).value.chunks;
            var kw := CreateSourceNode(loc, [Text(if mutable then "let " else "const ")]);
            (KeywordScope(s) ==> |chunks| >= 2 && chunks[0] == Sub(kw) && chunks[1] == name) &&
            (!KeywordScope(s) ==> chunks[0] == name)
  {
    VariableChunks(s, loc, mutable, name, value);
  }

  /** The value chunks close the layout exactly when a value is given. */
  lemma FormatVariableValue(s: ScopeType, loc: Location, mutable: bool, name: Chunk, value: Option<SourceNode>)
    requires Truthy(name)
    ensures var chunks := FormatVariable(Some(s), loc, mutable, name, value).value.chunks;
            (value.Some? ==> |chunks| >= 3 && chunks[|chunks| - 2..] == [Text(" = "), Sub(value.value)]) &&
            (value.None? ==> chunks[|chunks| - 1] == name)
  {
    VariableChunks(s, loc, mutable, name, value);
  }

  /** The chunks of `formatFunction`'s layout up to the body: keyword, name and parameters per scope. */
  function FunctionOpening(s: ScopeType, kw: seq<Chunk>, name: Chunk, ps: seq<Chunk>): seq<Chunk>
  {
    var arrowName := if Truthy(name) then [Text("const "), name, Text(" = ")] else [];
    match s
    case ProgramScope => kw + [Text("function ")] + (if Truthy(name) then [name] else []) + [Text("(")] + ps + [Text(") {")]
    case FunctionScope => arrowName + [Text(" ")] + kw + [Text(" (")] + ps + [Text(") => {")]
    case MethodScope => arrowName + [Text(" ")] + kw + [Text(" (")] + ps + [Text(") => {")]
    case MatchScope => [Text("("), name, Text(" = ")] + kw + [Text(" (")] + ps + [Text(") => {")]
    case WhenScope => [Text("("), name, Text(" = ")] + kw + [Text(" (")] + ps + [Text(") => {")]
    case IfScope => [Text("("), name, Text(" = ")] + kw + [Text(" (")] + ps + [Text(") => {")]
    case ClassScope => kw + [name, Text("(")] + ps + [Text(") {")]
    case InterfaceScope => kw + [name, Text("(")] + ps
    case VariableScope => [Text("(")] + kw + [Text(" (")] + ps + [Text(") => {")]
  }

  /** The closing chunk: `}` after a declaration or a method, `})` after an expression, `);` for an interface member. */
  function FunctionClose(s: ScopeType): Chunk
  {
    if s in {ProgramScope, FunctionScope, MethodScope, ClassScope} then Text("}")
    else if s == InterfaceScope then Text(");")
    else Text("})")
  }

  /**
   * The chunk list `formatFunction` lays out for a scope, before the falsy
   * ones are dropped: the opening, the body (none in an interface) and the
   * closing chunk.
   */
  function FunctionLayout(s: ScopeType, kw: seq<Chunk>, name: Chunk, params: seq<Chunk>, body: seq<Chunk>): seq<Chunk>
  {
    FunctionOpening(s, kw, name, JoinArray(params, Text(","))) + (if s == InterfaceScope then [] else body) + [FunctionClose(s)]
  }

  /** `formatFunction`: the scope's layout with `async ` as a node of its own when the function is async. */
  function FormatFunction(scope: Option<ScopeType>, loc: Location, isAsync: bool, name: Chunk,
                          params: seq<Chunk>, body: seq<Chunk>): (r: Result<SourceNode>)
    ensures scope.None? <==> r == Failure(FunctionError())
    ensures r.Success? ==> r.value.line == loc.start.line && r.value.column == loc.start.column - 1
  {
    match scope
    case None => Failure(FunctionError())
    case Some(s) =>
      var kw := if isAsync then [Sub(CreateSourceNode(loc, [Text("async ")]))] else [];
      Success(CreateSourceNode(loc, FunctionLayout(s, kw, name, params, body)))
  }

  /** A chunk of an opening is a keyword chunk, the name, a parameter chunk or a fixed string. */
  lemma OpeningMembers(s: ScopeType, kw: seq<Chunk>, name: Chunk, ps: seq<Chunk>, x: Chunk)
    ensures x in kw ==> x in FunctionOpening(s, kw, name, ps)
    ensures x in FunctionOpening(s, kw, name, ps) ==> x in kw || x == name || x in ps || x.Text?
  {
  }

  /** The `async ` node is emitted for async functions, and for no other unless a caller's chunk is that node. */
  lemma FormatFunctionAsync(s: ScopeType, loc: Location, isAsync: bool, name: Chunk, params: seq<Chunk>, body: seq<Chunk>)
    ensures var asyncNode := Sub(CreateSourceNode(loc, [Text("async ")]));
            var chunks := FormatFunction(Some(s), loc, isAsync, name, params, body).value.chunks;
            (isAsync ==> asyncNode in chunks) &&
            (!isAsync && asyncNode != name && asyncNode !in params && asyncNode !in body ==> asyncNode !in chunks)
  {
    var asyncNode := Sub(CreateSourceNode(loc, [Text("async ")]));
    var kw := if isAsync then [asyncNode] else [];
    var ps := JoinArray(params, Text(","));
    var tail := (if s == InterfaceScope then [] else body) + [FunctionClose(s)];
    var opening := FunctionOpening(s, kw, name, ps);
    assert FunctionLayout(s, kw, name, params, body) == opening + tail;
    OpeningMembers(s, kw, name, ps, asyncNode);
    JoinArrayMembers(params, Text(","), asyncNode);
    KeepTruthyMembers(opening + tail, asyncNode);
    assert asyncNode in tail ==> asyncNode in body;
  }

  /** In interface scope the layout ends with `);` and the body is not emitted. */
  lemma InterfaceFunctionHasNoBody(loc: Location, isAsync: bool, name: Chunk, params: seq<Chunk>, body: seq<Chunk>)
    ensures var r := FormatFunction(Some(InterfaceScope), loc, isAsync, name, params, body);
            r == FormatFunction(Some(InterfaceScope), loc, isAsync, name, params, []) &&
            |r.value.chunks| > 0 && r.value.chunks[|r.value.chunks| - 1] == Text(");")
  {
    var kw := if isAsync then [Sub(CreateSourceNode(loc, [Text("async ")]))] else [];
    var front := FunctionOpening(InterfaceScope, kw, name, JoinArray(params, Text(",")));
    assert FunctionLayout(InterfaceScope, kw, name, params, body) == front + [Text(");")];
    KeepTruthyAppend(front, [Text(");")]);
  }

  /** Every other scope emits the truthy body chunks just before the closing chunk. */
  lemma FunctionBodyLast(s: ScopeType, loc: Location, isAsync: bool, name: Chunk, params: seq<Chunk>, body: seq<Chunk>)
    requires s != InterfaceScope
    ensures var chunks := FormatFunction(Some(s), loc, isAsync, name, params, body).value.chunks;
            var kept := KeepTruthy(body);
            |chunks| > |kept| &&
            chunks[|chunks| - 1 - |kept|..|chunks| - 1] == kept &&
            chunks[|chunks| - 1] in {Text("}"), Text("})")}
  {
    var kw := if isAsync then [Sub(CreateSourceNode(loc, [Text("async ")]))] else [];
    var front := FunctionOpening(s, kw, name, JoinArray(params, Text(",")));
    var close := FunctionClose(s);
    assert FunctionLayout(s, kw, name, params, body) == front + body + [close];
    KeepTruthyAppend(front + body, [close]);
    KeepTruthyAppend(front, body);
  }
}
