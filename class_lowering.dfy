/**
 * The string pieces of class lowering: how a class body splits into
 * constructor fields, plain fields, methods and the rest, and how each part
 * prints once its names and values are visited.
 */
module ClassLowering {
  import opened Wrappers
  import opened Text
  import opened AstTags
  import opened Ast
  import opened JsCompilerEmit

  /** An entry's `nodes`: a list's elements or a quote's node array; `null` and a missing field have none. */
  function NodeListOf(b: Node): Option<seq<Node>>
  {
    match b
    case ListNode(_, nodes) => Some(nodes)
    case QuoteNode(_, _, _, SomeNodes(items)) => Some(items)
    case _ => None
  }

  /** The `TypeError` message for reading `_type` of `undefined`. */
  const UndefinedTypeRead: string := "Cannot read properties of undefined (reading '_type')"

  /** The message of the `TypeError` reading `_type` of what an entry without a node list contributes. */
  function MissingNodesError(b: Node): string
  {
    if b.QuoteNode? then "Cannot read properties of null (reading '_type')" else UndefinedTypeRead
  }

  /** `body.map((x) => x.nodes).flat(2)`, walked in order: the first entry without a node list throws. */
  function Members(body: seq<Node>): (r: Result<seq<Node>>)
    ensures r.Success? <==> forall i | 0 <= i < |body| :: NodeListOf(body[i]).Some?
    ensures r.Success? ==> forall i, x | 0 <= i < |body| && x in NodeListOf(body[i]).value :: x in r.value
    ensures r.Failure? ==> exists i | 0 <= i < |body| :: NodeListOf(body[i]).None? && r.error == MissingNodesError(body[i])
  {
    if |body| == 0 then Success([])
    else
      match NodeListOf(body[0])
      case None => Failure(MissingNodesError(body[0]))
      case Some(nodes) =>
        var rest := Members(body[1..]);
        assert forall i | 1 <= i < |body| :: body[i] == body[1..][i - 1];
        if rest.Failure? then rest else Success(nodes + rest.value)
  }

  /** The members come from inside the entries, so they lie below any node the entries lie below, and are well formed. */
  lemma {:induction false} MembersBelow(root: Node, body: seq<Node>)
    requires forall i | 0 <= i < |body| :: body[i] < root && WellFormed(body[i])
    ensures Members(body).Success? ==> forall x | x in Members(body).value :: x < root && WellFormed(x)
  {
    if |body| > 0 && NodeListOf(body[0]).Some? {
      var b := body[0];
      assert NodeListOf(b).value == Children(b);
      assert forall x | x in Children(b) :: WellFormed(x);
      MembersBelow(root, body[1..]);
    }
  }

  /** The names of the field modifiers among `modifiers`. */
  function FieldModifierNames(modifiers: seq<Node>): (r: seq<string>)
    ensures forall s :: s in r <==> exists i | 0 <= i < |modifiers| ::
              modifiers[i].ModifierNode? && modifiers[i].kind == FieldKind && modifiers[i].modifier == s
  {
    if |modifiers| == 0 then []
    else
      var m := modifiers[0];
      var rest := FieldModifierNames(modifiers[1..]);
      assert forall i | 1 <= i < |modifiers| :: modifiers[i] == modifiers[1..][i - 1];
      (if m.ModifierNode? && m.kind == FieldKind then [m.modifier] else []) + rest
  }

  /** `modifiers.some((x) => x.modifier === name)`, whatever the kind of the modifier. */
  predicate HasModifier(modifiers: seq<Node>, name: string)
  {
    exists i | 0 <= i < |modifiers| :: modifiers[i].ModifierNode? && modifiers[i].modifier == name
  }

  /** A variable with the `ctor` field modifier becomes a constructor parameter. */
  predicate IsCtorVariable(b: Node)
  {
    b.VariableNode? && "ctor" in FieldModifierNames(b.modifiers)
  }

  predicate IsPlainField(b: Node)
  {
    b.VariableNode? && "ctor" !in FieldModifierNames(b.modifiers)
  }

  predicate IsOtherMember(b: Node)
  {
    !b.VariableNode? && !b.FunctionNode?
  }

  predicate IsMethod(b: Node)
  {
    b.FunctionNode?
  }

  /** The members `keep` accepts, in their order. */
  function Filter(ms: seq<Node>, keep: Node -> bool): (r: seq<Node>)
    ensures forall x :: x in r <==> x in ms && keep(x)
  {
    if |ms| == 0 then [] else (if keep(ms[0]) then [ms[0]] else []) + Filter(ms[1..], keep)
  }

  /** Appending a member extends the filtered list by that member exactly when it is kept: the order is kept. */
  lemma {:induction false} FilterAppend(ms: seq<Node>, b: Node, keep: Node -> bool)
    ensures Filter(ms + [b], keep) == Filter(ms, keep) + (if keep(b) then [b] else [])
  {
    if |ms| == 0 {
      assert [] + [b] == [b];
    } else {
      assert (ms + [b])[1..] == ms[1..] + [b];
      FilterAppend(ms[1..], b, keep);
    }
  }

  function CtorVars(ms: seq<Node>): seq<Node>
  {
    Filter(ms, IsCtorVariable)
  }

  function PlainFields(ms: seq<Node>): seq<Node>
  {
    Filter(ms, IsPlainField)
  }

  function Methods(ms: seq<Node>): seq<Node>
  {
    Filter(ms, IsMethod)
  }

  function OtherMembers(ms: seq<Node>): seq<Node>
  {
    Filter(ms, IsOtherMember)
  }

  /** One more member extends exactly the group its kind selects. */
  lemma PartitionAppend(ms: seq<Node>, b: Node)
    ensures CtorVars(ms + [b]) == CtorVars(ms) + (if IsCtorVariable(b) then [b] else [])
    ensures PlainFields(ms + [b]) == PlainFields(ms) + (if IsPlainField(b) then [b] else [])
    ensures Methods(ms + [b]) == Methods(ms) + (if b.FunctionNode? then [b] else [])
    ensures OtherMembers(ms + [b]) == OtherMembers(ms) + (if !b.VariableNode? && !b.FunctionNode? then [b] else [])
  {
    FilterAppend(ms, b, IsCtorVariable);
    FilterAppend(ms, b, IsPlainField);
    FilterAppend(ms, b, IsMethod);
    FilterAppend(ms, b, IsOtherMember);
  }

  /** The four groups split the members: every member lands in exactly one, so their sizes add up. */
  lemma {:induction false} PartitionSizes(ms: seq<Node>)
    ensures |CtorVars(ms)| + |PlainFields(ms)| + |Methods(ms)| + |OtherMembers(ms)| == |ms|
  {
    if |ms| > 0 {
      PartitionSizes(ms[1..]);
    }
  }

  // ---- Printing ----

  /** A field's name in code: a private field takes the `#` prefix. */
  function FieldName(name: JsValue, private: bool): string
  {
    (if private then "#" else "") + Template(name)
  }

  /** One plain field: the readonly and nullable comment lines, the name, the initializer when there is a value. */
  function FieldCode(name: JsValue, private: bool, readonly: bool, nullable: bool, value: Option<JsValue>): string
  {
    (if readonly then "// readonly\n" else "") + (if nullable then "// nullable\n" else "")
    + FieldName(name, private) + (if value.Some? then " = " + Template(value.value) + ";" else ";")
  }

  /** One assignment of a constructor parameter to its field. */
  function CtorAssignment(name: JsValue, private: bool): string
  {
    "this." + FieldName(name, private) + " = " + Template(name) + ";"
  }

  function CtorAssignments(names: seq<JsValue>, privates: seq<bool>): (r: seq<string>)
    requires |names| == |privates|
    ensures |r| == |names| && forall i | 0 <= i < |r| :: r[i] == CtorAssignment(names[i], privates[i])
  {
    if |names| == 0 then [] else [CtorAssignment(names[0], privates[0])] + CtorAssignments(names[1..], privates[1..])
  }

  /** `buildConstructor`'s text: none without constructor fields, else the parameters in order and one assignment each. */
  function CtorCode(names: seq<JsValue>, privates: seq<bool>): (r: string)
    requires |names| == |privates|
    ensures r == "" <==> |names| == 0
  {
    if |names| == 0 then ""
    else "constructor(" + Joined(names, ",") + ") {\n" + Join(CtorAssignments(names, privates), "\n") + "\n}"
  }

  /** A private constructor field is assigned through `this.#`, any other through `this.`. */
  lemma CtorAssignmentPrivacy(name: string, private: bool)
    ensures CtorAssignment(Str(name), private) ==
            (if private then "this.#" else "this.") + name + " = " + name + ";"
  {
  }

  /** One method: optional `async `, the name, the parameters joined with "," and the body lines. */
  function MethodCode(isAsync: bool, name: JsValue, params: seq<JsValue>, body: seq<JsValue>): string
  {
    (if isAsync then "async " else "") + Template(name) + "(" + Joined(params, ",") + ") {\n" + Joined(body, "\n") + "\n}"
  }

  /** What `x.name` gives for an extends or implements entry: a type name's text, a type's name node, or nothing. */
  function HeritageName(x: Node): JsValue
  {
    match x
    case TypeNameNode(_, typeName) => Str(typeName)
    case SimpleTypeNode(_, name) => if name.Some? then Record else Undefined
    case GenericTypeNode(_, name, _, _) => if name.Some? then Record else Undefined
    case _ => Undefined
  }

  function HeritageNames(xs: seq<Node>): (r: seq<JsValue>)
    ensures |r| == |xs| && forall i | 0 <= i < |xs| :: r[i] == HeritageName(xs[i])
  {
    if |xs| == 0 then [] else [HeritageName(xs[0])] + HeritageNames(xs[1..])
  }

  /** ` extends A,B` or ` implements A,B`, and nothing for an empty list. */
  function HeritageClause(keyword: string, xs: seq<Node>): (r: string)
    ensures |xs| == 0 <==> r == ""
  {
    if |xs| > 0 then " " + keyword + " " + Joined(HeritageNames(xs), ",") else ""
  }

  /** `accessModifiers`: each access entry's `modifier`. */
  function AccessTexts(access: seq<Node>): (r: seq<JsValue>)
    ensures |r| == |access|
  {
    if |access| == 0 then []
    else [if access[0].ModifierNode? then Str(access[0].modifier) else Undefined] + AccessTexts(access[1..])
  }

  /** `build`: access modifiers (directly before `class`), name, clauses, then the four parts of the body. */
  function ClassCode(access: seq<JsValue>, name: JsValue, extendsClause: string, implementsClause: string,
                     fields: string, ctor: string, methods: string, others: string): string
  {
    Joined(access, " ") + "class " + Template(name) + extendsClause + implementsClause
    + " {\n" + Join([fields, ctor, methods, others], "\n") + "\n}"
  }

  /** The body is the fields, the constructor, the methods and the rest, in that order, one line break apart. */
  lemma ClassBodyOrder(access: seq<JsValue>, name: JsValue, ext: string, impl: string,
                       fields: string, ctor: string, methods: string, others: string)
    ensures ClassCode(access, name, ext, impl, fields, ctor, methods, others) ==
            Joined(access, " ") + "class " + Template(name) + ext + impl
            + " {\n" + fields + "\n" + ctor + "\n" + methods + "\n" + others + "\n}"
  {
    var parts := [fields, ctor, methods, others];
    assert parts[1..] == [ctor, methods, others];
    assert parts[1..][1..] == [methods, others];
    assert parts[1..][1..][1..] == [others];
    assert Join([methods, others], "\n") == methods + "\n" + others;
    assert Join([ctor, methods, others], "\n") == ctor + "\n" + (methods + "\n" + others);
    assert Join(parts, "\n") == fields + "\n" + (ctor + "\n" + (methods + "\n" + others));
  }
}
