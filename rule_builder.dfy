/**
 * Validation rules over AST nodes: a builder that assembles a rule from a
 * code, a severity, a message, a type filter and a list of tests, and the
 * collection the rules' violations are appended to.
 */
module RuleBuilder {
  import opened Text
  import opened AstTags
  import opened Ast

  /** The severity of a rule violation; `None` is shown only in verbose mode. */
  datatype RuleSeverity = Error | Warning | Message | None

  /** A rule: its violation is reported when `test` holds on a node. */
  datatype Rule = Rule(message: string, code: string, severity: RuleSeverity, test: Node -> bool)

  /** The argument of `addCode`: a code given as text, or as a number. */
  datatype CodeArgument = CodeText(text: string) | CodeNumber(number: int)

  /** The code `addCode` stores: text verbatim, a number as "LL" and its decimal form padded to four digits. */
  function CodeFor(code: CodeArgument): (r: string)
    ensures code.CodeText? ==> r == code.text
    ensures code.CodeNumber? ==> |r| >= 2 && r[..2] == "LL" && r[2..] == PadStart(Text.Decimal(code.number), 4, '0')
  {
    match code
    case CodeText(s) => s
    case CodeNumber(n) => "LL" + PadStart(Text.Decimal(n), 4, '0')
  }

  /** Numeric codes from 0 to 9999 come out as "LL" and exactly four digits, zero-padded. */
  lemma CodeNumberShape(n: nat)
    requires n < 10000
    ensures |CodeFor(CodeNumber(n))| == 6
    ensures forall i | 2 <= i < 6 :: IsDigit(CodeFor(CodeNumber(n))[i])
  {
    NatToStringDigits(n, 10);
    NumeralLength(n);
    var d := Text.Decimal(n);
    var r := CodeFor(CodeNumber(n));
    assert r[2..] == PadStart(d, 4, '0');
  }

  /** A number below 10000 has at most four decimal digits. */
  lemma {:induction false} NumeralLength(n: nat)
    requires n < 10000
    ensures |NatToString(n, 10)| <= 4
  {
    if n >= 10 {
      assert NatToString(n, 10) == NatToString(n / 10, 10) + [DigitChar(n % 10)];
      if n / 10 >= 10 {
        assert NatToString(n / 10, 10) == NatToString(n / 100, 10) + [DigitChar(n / 10 % 10)];
        if n / 100 >= 10 {
          assert NatToString(n / 100, 10) == NatToString(n / 1000, 10) + [DigitChar(n / 100 % 10)];
          assert n / 1000 < 10;
        }
      }
    }
  }

  /** `addCode(5)` stores "LL0005". */
  lemma CodeFive()
    ensures CodeFor(CodeNumber(5)) == "LL0005"
  {
    assert Text.Decimal(5) == "5";
    assert PadStart("5", 4, '0') == "0005";
  }

  /** Whether a tag passes the filter: listed, or unlisted when inverted. */
  predicate PassesFilter(filterTypes: seq<string>, invert: bool, node: Node)
  {
    if invert then TypeOf(node) !in filterTypes else TypeOf(node) in filterTypes
  }

  /** Whether every test holds on the node. */
  predicate AllHold(tests: seq<Node -> bool>, node: Node)
  {
    forall i | 0 <= i < |tests| :: tests[i](node)
  }

  /** The rule `build` makes: its test is the filter conjoined with every added test. */
  function MakeRule(code: string, severity: RuleSeverity, message: string, tests: seq<Node -> bool>,
                    filterTypes: seq<string>, invert: bool): (r: Rule)
    ensures r.code == code && r.severity == severity && r.message == message
  {
    Rule(message, code, severity, (node: Node) => PassesFilter(filterTypes, invert, node) && AllHold(tests, node))
  }

  /** A built rule fires exactly on the nodes that pass the filter and satisfy all tests. */
  lemma MakeRuleTest(code: string, severity: RuleSeverity, message: string, tests: seq<Node -> bool>,
                     filterTypes: seq<string>, invert: bool, node: Node)
    ensures MakeRule(code, severity, message, tests, filterTypes, invert).test(node) <==>
            (if invert then TypeOf(node) !in filterTypes else TypeOf(node) in filterTypes)
            && forall i | 0 <= i < |tests| :: tests[i](node)
  {
  }

  /** A rule built with a single test fires where the filter passes and that test holds. */
  lemma SingleTestRule(t: Node -> bool, filterTypes: seq<string>, invert: bool, node: Node)
    ensures forall code, severity, message ::
              MakeRule(code, severity, message, [t], filterTypes, invert).test(node) <==>
              PassesFilter(filterTypes, invert, node) && t(node)
  {
    assert AllHold([t], node) <==> t(node) by {
      assert [t][0] == t;
    }
  }

  /** `RuleBuilder`: each `add*` sets one part of the rule and returns the builder itself. */
  class RuleBuilder {
    var code: string
    var severity: RuleSeverity
    var message: string
    var tests: seq<Node -> bool>
    var filterTypes: seq<string>
    var invertFilter: bool

    constructor()
      ensures code == "" && severity == None && message == ""
      ensures tests == [] && filterTypes == [] && !invertFilter
    {
      code := "";
      severity := None;
      message := "";
      tests := [];
      filterTypes := [];
      invertFilter := false;
    }

    method AddCode(c: CodeArgument) returns (self: RuleBuilder)
      modifies this
      ensures self == this && code == CodeFor(c)
      ensures severity == old(severity) && message == old(message) && tests == old(tests)
      ensures filterTypes == old(filterTypes) && invertFilter == old(invertFilter)
    {
      code := CodeFor(c);
      self := this;
    }

    method AddSeverity(s: RuleSeverity) returns (self: RuleBuilder)
      modifies this
      ensures self == this && severity == s
      ensures code == old(code) && message == old(message) && tests == old(tests)
      ensures filterTypes == old(filterTypes) && invertFilter == old(invertFilter)
    {
      severity := s;
      self := this;
    }

    method AddMessage(m: string) returns (self: RuleBuilder)
      modifies this
      ensures self == this && message == m
      ensures code == old(code) && severity == old(severity) && tests == old(tests)
      ensures filterTypes == old(filterTypes) && invertFilter == old(invertFilter)
    {
      message := m;
      self := this;
    }

    /** Appends a test; tests accumulate. */
    method AddTest(t: Node -> bool) returns (self: RuleBuilder)
      modifies this
      ensures self == this && tests == old(tests) + [t]
      ensures code == old(code) && severity == old(severity) && message == old(message)
      ensures filterTypes == old(filterTypes) && invertFilter == old(invertFilter)
    {
      tests := tests + [t];
      self := this;
    }

    /** Replaces the filter list; an inversion set earlier stays set. */
    method AddTypeFilter(types: seq<string>) returns (self: RuleBuilder)
      modifies this
      ensures self == this && filterTypes == types && invertFilter == old(invertFilter)
      ensures code == old(code) && severity == old(severity) && message == old(message) && tests == old(tests)
    {
      filterTypes := types;
      self := this;
    }

    /** Replaces the filter list and inverts the filter. */
    method AddInvertedTypeFilter(types: seq<string>) returns (self: RuleBuilder)
      modifies this
      ensures self == this && filterTypes == types && invertFilter
      ensures code == old(code) && severity == old(severity) && message == old(message) && tests == old(tests)
    {
      filterTypes := types;
      invertFilter := true;
      self := this;
    }

    method Build() returns (r: Rule)
      ensures r == MakeRule(code, severity, message, tests, filterTypes, invertFilter)
    {
      r := MakeRule(code, severity, message, tests, filterTypes, invertFilter);
    }
  }

  /** One reported violation (its formatted message text is not modelled). */
  datatype ValidationMessage = ValidationMessage(code: string, severity: RuleSeverity, source: string, line: int)

  /** The entry `add` makes: the rule's code and severity, the node's source or "<unknown>", its start line. */
  function MessageFor(node: Node, rule: Rule): (m: ValidationMessage)
    ensures m.code == rule.code && m.severity == rule.severity && m.line == node.loc.start.line
    ensures node.loc.source.Some? ==> m.source == node.loc.source.value
    ensures node.loc.source.None? ==> m.source == "<unknown>"
  {
    ValidationMessage(rule.code, rule.severity, if node.loc.source.Some? then node.loc.source.value else "<unknown>",
                      node.loc.start.line)
  }

  /** The entries of severity `s`, in order. */
  function OfSeverity(entries: seq<ValidationMessage>, s: RuleSeverity): (r: seq<ValidationMessage>)
    ensures |r| <= |entries|
    ensures forall m :: m in r <==> m in entries && m.severity == s
  {
    if |entries| == 0 then []
    else (if entries[0].severity == s then [entries[0]] else []) + OfSeverity(entries[1..], s)
  }

  /** Filtering keeps order: it distributes over concatenation. */
  lemma {:induction false} OfSeverityAppend(a: seq<ValidationMessage>, b: seq<ValidationMessage>, s: RuleSeverity)
    ensures OfSeverity(a + b, s) == OfSeverity(a, s) + OfSeverity(b, s)
  {
    if |a| > 0 {
      assert (a + b)[1..] == a[1..] + b;
      OfSeverityAppend(a[1..], b, s);
    } else {
      assert a + b == b;
    }
  }

  /** Every entry lands in exactly one of the four severity lists. */
  lemma {:induction false} SeveritiesPartition(entries: seq<ValidationMessage>)
    ensures |OfSeverity(entries, Error)| + |OfSeverity(entries, Warning)| + |OfSeverity(entries, Message)|
            + |OfSeverity(entries, None)| == |entries|
  {
    if |entries| > 0 {
      SeveritiesPartition(entries[1..]);
    }
  }

  /** The rule-violation entries of a compilation, in the order they were added. */
  class RuleValidationResultsCollection {
    var collection: seq<ValidationMessage>

    constructor()
      ensures collection == []
    {
      collection := [];
    }

    /** Appends the entry for `rule` violated at `node` and returns it. */
    method Add(node: Node, rule: Rule) returns (m: ValidationMessage)
      modifies this
      ensures m == MessageFor(node, rule)
      ensures collection == old(collection) + [m]
    {
      m := MessageFor(node, rule);
      collection := collection + [m];
    }

    function HasErrors(): (r: bool)
      reads this
      ensures r <==> exists i | 0 <= i < |collection| :: collection[i].severity == Error
    {
      exists i | 0 <= i < |collection| :: collection[i].severity == Error
    }

    function Errors(): (r: seq<ValidationMessage>)
      reads this
      ensures r == OfSeverity(collection, Error)
      ensures |r| > 0 <==> HasErrors()
    {
      var r := OfSeverity(collection, Error);
      assert |r| > 0 ==> r[0] in r;
      assert HasErrors() ==> exists i | 0 <= i < |collection| :: collection[i] in r;
      r
    }

    function Warnings(): (r: seq<ValidationMessage>)
      reads this
      ensures r == OfSeverity(collection, Warning)
    {
      OfSeverity(collection, Warning)
    }

    function Messages(): (r: seq<ValidationMessage>)
      reads this
      ensures r == OfSeverity(collection, Message)
    {
      OfSeverity(collection, Message)
    }

    function All(): (r: seq<ValidationMessage>)
      reads this
      ensures r == collection
    {
      collection
    }
  }

  /** The entries `checkRules` adds: one per rule whose test holds, in rule order. */
  function Fired(node: Node, rules: seq<Rule>): (r: seq<ValidationMessage>)
    ensures |r| <= |rules|
  {
    if |rules| == 0 then []
    else (if rules[0].test(node) then [MessageFor(node, rules[0])] else []) + Fired(node, rules[1..])
  }

  lemma {:induction false} FiredAppend(node: Node, a: seq<Rule>, b: seq<Rule>)
    ensures Fired(node, a + b) == Fired(node, a) + Fired(node, b)
  {
    if |a| > 0 {
      assert (a + b)[1..] == a[1..] + b;
      FiredAppend(node, a[1..], b);
    } else {
      assert a + b == b;
    }
  }

  /** Nothing is reported exactly when no rule's test holds. */
  lemma {:induction false} FiredEmpty(node: Node, rules: seq<Rule>)
    ensures Fired(node, rules) == [] <==> forall i | 0 <= i < |rules| :: !rules[i].test(node)
  {
    if |rules| > 0 {
      FiredEmpty(node, rules[1..]);
      assert forall i | 1 <= i < |rules| :: rules[1..][i - 1] == rules[i];
    }
  }

  /** `checkRules`: appends one entry per violated rule, in rule order, and returns those entries. */
  method CheckRules(node: Node, rules: seq<Rule>, results: RuleValidationResultsCollection)
    returns (added: seq<ValidationMessage>)
    modifies results
    ensures added == Fired(node, rules)
    ensures results.collection == old(results.collection) + added
  {
    added := [];
    for i := 0 to |rules|
      invariant added == Fired(node, rules[..i])
      invariant results.collection == old(results.collection) + added
    {
      FiredAppend(node, rules[..i], [rules[i]]);
      assert rules[..i + 1] == rules[..i] + [rules[i]];
      if rules[i].test(node) {
        var m := results.Add(node, rules[i]);
        added := added + [m];
      }
    }
    assert rules[..|rules|] == rules;
  }
}
