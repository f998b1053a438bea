/**
 * The symbol table: a stack of scopes, innermost first, each holding a table
 * from names to entries. Every scope records the kind of construct that
 * opened it.
 */
module SymbolTable {
  import opened Wrappers
  import opened AstTags
  import opened Ast

  /** The kinds of scope, shared with the code generator's emission scope stack. */
  datatype ScopeType = ProgramScope | ClassScope | InterfaceScope | FunctionScope | VariableScope
                     | MethodScope | MatchScope | WhenScope | IfScope

  /** One defined name. */
  datatype SymbolEntry = SymbolEntry(name: Option<Node>, entryType: NodeType, scope: ScopeType,
                                     mutability: bool, value: Node)

  /**
   * A scope and its table. A key is the text `defineSymbol` computes, or
   * `None` when that text is `undefined`, which a JavaScript `Map` accepts as
   * a key too.
   */
  datatype Scope = Scope(scope: ScopeType, table: map<Option<string>, SymbolEntry>)

  /** The node kinds `defineSymbol` accepts, with a name that is an identifier, a type name or absent. */
  predicate Definable(node: Node)
  {
    (node.VariableNode? || node.FunctionNode? || node.ClassNode? || node.InterfaceNode?)
    && (node.name.Some? ==> (IsIdentifierNode(node.name.value) || node.name.value.TypeNameNode?))
  }

  /** `name?.id || name?.name`: a non-empty identifier id, else the type name, else undefined. */
  function KeyOf(node: Node): (k: Option<string>)
    requires Definable(node)
    ensures node.name.None? ==> k.None?
    ensures node.name.Some? && IsIdentifierNode(node.name.value) ==>
              k == (if node.name.value.id != "" then Some(node.name.value.id) else None)
    ensures node.name.Some? && node.name.value.TypeNameNode? ==> k == Some(node.name.value.typeName)
  {
    match node.name
    case None => None
    case Some(n) =>
      if IsIdentifierNode(n) then (if n.id != "" then Some(n.id) else None)
      else Some(n.typeName)
  }

  /** The entry `defineSymbol` stores for a node defined in a scope of kind `kind`. */
  function EntryFor(node: Node, kind: ScopeType): (e: SymbolEntry)
    requires Definable(node)
    ensures e.name == node.name && e.entryType == Tag(node) && e.scope == kind && e.value == node
    ensures e.mutability <==> node.VariableNode? && node.mutable
  {
    SymbolEntry(node.name, Tag(node), kind, if node.VariableNode? then node.mutable else false, node)
  }

  // ---- The operations as functions of the scope stack ----

  function Enter(scopes: seq<Scope>, kind: ScopeType): seq<Scope>
  {
    [Scope(kind, map[])] + scopes
  }

  /** `exitScope`'s result and the remaining stack; `shift` on an empty array yields undefined. */
  function Exit(scopes: seq<Scope>): (Option<Scope>, seq<Scope>)
  {
    if |scopes| == 0 then (None, scopes) else (Some(scopes[0]), scopes[1..])
  }

  function Define(scopes: seq<Scope>, node: Node): Result<seq<Scope>>
    requires Definable(node)
  {
    if |scopes| == 0 then Failure("No current scope to define symbol")
    else
      var inner := scopes[0];
      Success([inner.(table := inner.table[KeyOf(node) := EntryFor(node, inner.scope)])] + scopes[1..])
  }

  /** The entry for `key` in the innermost scope whose table has it. */
  function Resolve(scopes: seq<Scope>, key: Option<string>): Option<SymbolEntry>
  {
    if |scopes| == 0 then None
    else if key in scopes[0].table then Some(scopes[0].table[key])
    else Resolve(scopes[1..], key)
  }

  /** `Resolve` finds exactly the entry of the innermost scope that has the key. */
  lemma {:induction false} ResolveInnermost(scopes: seq<Scope>, key: Option<string>)
    ensures Resolve(scopes, key).Some? <==> exists i | 0 <= i < |scopes| :: key in scopes[i].table
    ensures forall i | 0 <= i < |scopes| && key in scopes[i].table
              && (forall j | 0 <= j < i :: key !in scopes[j].table) ::
              Resolve(scopes, key) == Some(scopes[i].table[key])
  {
    if |scopes| > 0 {
      ResolveInnermost(scopes[1..], key);
      assert forall i | 1 <= i < |scopes| :: scopes[1..][i - 1] == scopes[i];
    }
  }

  /** A fresh scope hides nothing: resolution sees through it. */
  lemma EnterKeepsResolution(scopes: seq<Scope>, kind: ScopeType, key: Option<string>)
    ensures Resolve(Enter(scopes, kind), key) == Resolve(scopes, key)
  {
    assert Enter(scopes, kind)[1..] == scopes;
  }

  /** Exiting right after entering returns the new, empty scope and restores the stack. */
  lemma EnterThenExit(scopes: seq<Scope>, kind: ScopeType)
    ensures Exit(Enter(scopes, kind)) == (Some(Scope(kind, map[])), scopes)
  {
    assert Enter(scopes, kind)[1..] == scopes;
  }

  /** A defined symbol is found under its key, innermost wins over outer definitions. */
  lemma DefineThenResolve(scopes: seq<Scope>, node: Node)
    requires Definable(node) && |scopes| > 0
    ensures Define(scopes, node).Success?
    ensures Resolve(Define(scopes, node).value, KeyOf(node)) == Some(EntryFor(node, scopes[0].scope))
  {
  }

  /** Defining touches only the innermost table and only its key. */
  lemma DefineLocal(scopes: seq<Scope>, node: Node, other: Option<string>)
    requires Definable(node) && |scopes| > 0 && other != KeyOf(node)
    ensures Define(scopes, node).value[1..] == scopes[1..]
    ensures Resolve(Define(scopes, node).value, other) == Resolve(scopes, other)
  {
    var s' := Define(scopes, node).value;
    assert s'[1..] == scopes[1..];
  }

  /** Definitions made in a scope disappear with it. */
  lemma ScopedDefinition(scopes: seq<Scope>, kind: ScopeType, node: Node)
    requires Definable(node)
    ensures Define(Enter(scopes, kind), node).Success?
    ensures Exit(Define(Enter(scopes, kind), node).value).1 == scopes
  {
    var s' := Define(Enter(scopes, kind), node).value;
    assert s'[1..] == Enter(scopes, kind)[1..] == scopes;
  }

  /** `SymbolTable` with its private `scopes` array. */
  class SymbolTable {
    var scopes: seq<Scope>

    constructor()
      ensures scopes == []
    {
      scopes := [];
    }

    /** The innermost scope's kind; throws on an empty stack. */
    function CurrentScope(): (r: Result<ScopeType>)
      reads this
      ensures r.Success? <==> |scopes| > 0
      ensures r.Success? ==> r.value == scopes[0].scope
    {
      if |scopes| == 0 then Failure("No current scope to define symbol") else Success(scopes[0].scope)
    }

    /** Pushes a new, empty scope of the given kind as the innermost one. */
    method EnterScope(kind: ScopeType)
      modifies this
      ensures scopes == Enter(old(scopes), kind)
    {
      scopes := [Scope(kind, map[])] + scopes;
    }

    /** Removes and returns the innermost scope, or returns `None` on an empty stack. */
    method ExitScope() returns (r: Option<Scope>)
      modifies this
      ensures (r, scopes) == Exit(old(scopes))
    {
      if |scopes| == 0 {
        r := None;
      } else {
        r := Some(scopes[0]);
        scopes := scopes[1..];
      }
    }

    /** Sets the node's entry in the innermost table; throws when no scope is open. */
    method DefineSymbol(node: Node) returns (r: Result<()>)
      requires Definable(node)
      modifies this
      ensures old(|scopes|) == 0 ==> r.Failure? && scopes == old(scopes)
      ensures old(|scopes|) > 0 ==> r.Success? && Define(old(scopes), node) == Success(scopes)
    {
      if |scopes| == 0 {
        return Failure("No current scope to define symbol");
      }
      var inner := scopes[0];
      scopes := [inner.(table := inner.table[KeyOf(node) := EntryFor(node, inner.scope)])] + scopes[1..];
      r := Success(());
    }

    /** Looks the name up scope by scope, innermost first. */
    method ResolveSymbol(name: string) returns (r: Option<SymbolEntry>)
      ensures r == Resolve(scopes, Some(name))
      ensures r.Some? <==> exists i | 0 <= i < |scopes| :: Some(name) in scopes[i].table
    {
      ResolveInnermost(scopes, Some(name));
      var i := 0;
      while i < |scopes|
        invariant 0 <= i <= |scopes|
        invariant Resolve(scopes, Some(name)) == Resolve(scopes[i..], Some(name))
      {
        if Some(name) in scopes[i].table {
          return Some(scopes[i].table[Some(name)]);
        }
        assert scopes[i..][1..] == scopes[i + 1..];
        i := i + 1;
      }
      r := None;
    }
  }
}
