/**
 * The bracket checker the REPL uses to decide whether input is complete:
 * a stack of expected closers, with double quotes toggling a string state in
 * which every character is ignored.
 */
module BracketsBalance {

  predicate IsOpener(c: char)
  {
    c == '(' || c == '[' || c == '{'
  }

  predicate IsCloser(c: char)
  {
    c == ')' || c == ']' || c == '}'
  }

  /** The `brackets` table: each opener's own closer. */
  function CloserOf(c: char): (r: char)
    requires IsOpener(c)
    ensures IsCloser(r)
  {
    if c == '(' then ')' else if c == '[' then ']' else '}'
  }

  function OpenerOf(c: char): (r: char)
    requires IsCloser(c)
    ensures IsOpener(r) && CloserOf(r) == c
  {
    if c == ')' then '(' else if c == ']' then '[' else '{'
  }

  /** `true`, or the number the checker returns. */
  datatype Balance = Balanced | Unbalanced(count: int)

  /**
   * The checker's run on the rest of the input, from a stack of expected
   * closers (top last) and the in-string flag.
   */
  function Scan(code: string, stack: seq<char>, inString: bool): Balance
    decreases |code|
  {
    if |code| == 0 then
      if |stack| == 0 then Balanced else Unbalanced(|stack|)
    else
      var c := code[0];
      var inString' := if c == '"' then !inString else inString;
      if inString' then Scan(code[1..], stack, inString')
      else if IsOpener(c) then Scan(code[1..], stack + [CloserOf(c)], inString')
      else if IsCloser(c) then
        if |stack| == 0 then Unbalanced(-1)
        else if stack[|stack| - 1] != c then Unbalanced(|stack| - 1)
        else Scan(code[1..], stack[..|stack| - 1], inString')
      else Scan(code[1..], stack, inString')
  }

  /** `checkBracketsBalance`. */
  method CheckBracketsBalance(code: string) returns (r: Balance)
    ensures r == Scan(code, [], false)
    ensures r.Balanced? <==> Dyck(Outside(code, false))
  {
    var stack: seq<char> := [];
    var inString := false;
    var i := 0;
    while i < |code|
      invariant 0 <= i <= |code|
      invariant Scan(code, [], false) == Scan(code[i..], stack, inString)
    {
      var c := code[i];
      assert code[i..][0] == c && code[i..][1..] == code[i + 1..];
      if c == '"' {
        inString := !inString;
      }
      if inString {
        i := i + 1;
        continue;
      }
      if IsOpener(c) {
        stack := stack + [CloserOf(c)];
      }
      if IsCloser(c) {
        if |stack| == 0 {
          BalancedIffDyck(code);
          return Unbalanced(-1);
        }
        var top := stack[|stack| - 1];
        stack := stack[..|stack| - 1];
        if top != c {
          BalancedIffDyck(code);
          return Unbalanced(|stack|);
        }
      }
      i := i + 1;
    }
    if |stack| == 0 {
      r := Balanced;
    } else {
      r := Unbalanced(|stack|);
    }
    BalancedIffDyck(code);
  }

  // ---- The brackets that count: outside string literals ----

  /** The bracket characters the checker reacts to, in order. */
  function Outside(code: string, inString: bool): (r: string)
    ensures forall i | 0 <= i < |r| :: IsOpener(r[i]) || IsCloser(r[i])
    decreases |code|
  {
    if |code| == 0 then ""
    else
      var c := code[0];
      var inString' := if c == '"' then !inString else inString;
      if !inString' && (IsOpener(c) || IsCloser(c)) then [c] + Outside(code[1..], inString')
      else Outside(code[1..], inString')
  }

  /** The checker's decisions on the bracket characters alone. */
  function Machine(b: string, stack: seq<char>): Balance
    decreases |b|
  {
    if |b| == 0 then
      if |stack| == 0 then Balanced else Unbalanced(|stack|)
    else if IsOpener(b[0]) then Machine(b[1..], stack + [CloserOf(b[0])])
    else if IsCloser(b[0]) then
      if |stack| == 0 then Unbalanced(-1)
      else if stack[|stack| - 1] != b[0] then Unbalanced(|stack| - 1)
      else Machine(b[1..], stack[..|stack| - 1])
    else Machine(b[1..], stack)
  }

  lemma {:induction false} ScanIsMachine(code: string, stack: seq<char>, inString: bool)
    ensures Scan(code, stack, inString) == Machine(Outside(code, inString), stack)
    decreases |code|
  {
    if |code| > 0 {
      var c := code[0];
      var inString' := if c == '"' then !inString else inString;
      if inString' {
        ScanIsMachine(code[1..], stack, inString');
      } else if IsOpener(c) {
        ScanIsMachine(code[1..], stack + [CloserOf(c)], inString');
        assert ([c] + Outside(code[1..], inString'))[1..] == Outside(code[1..], inString');
      } else if IsCloser(c) {
        if |stack| > 0 && stack[|stack| - 1] == c {
          ScanIsMachine(code[1..], stack[..|stack| - 1], inString');
        }
        assert ([c] + Outside(code[1..], inString'))[1..] == Outside(code[1..], inString');
      } else {
        ScanIsMachine(code[1..], stack, inString');
      }
    }
  }

  /** Text between a pair of double quotes has no effect on the result. */
  lemma {:induction false} QuotedTextIgnored(s: string, rest: string)
    requires forall i | 0 <= i < |s| :: s[i] != '"'
    ensures Outside("\"" + s + "\"" + rest, false) == Outside(rest, false)
  {
    var code := "\"" + s + "\"" + rest;
    var tail := "\"" + rest;
    assert code[0] == '"';
    assert code[1..] == s + tail;
    InsideString(s, tail);
    assert tail[0] == '"' && tail[1..] == rest;
  }

  lemma {:induction false} InsideString(s: string, rest: string)
    requires forall i | 0 <= i < |s| :: s[i] != '"'
    ensures Outside(s + rest, true) == Outside(rest, true)
    decreases |s|
  {
    if |s| > 0 {
      assert (s + rest)[0] == s[0];
      assert (s + rest)[1..] == s[1..] + rest;
      InsideString(s[1..], rest);
    } else {
      assert s + rest == rest;
    }
  }

  // ---- Properly nested bracket sequences ----

  /**
   * The grammar of balanced brackets: empty, or an opener, a balanced
   * sequence, the opener's own closer, and another balanced sequence.
   */
  ghost predicate Dyck(s: string)
    decreases |s|, 1
  {
    |s| == 0 || exists k :: DyckSplit(s, k)
  }

  /** `s` is `s[0]`, a balanced `s[1..k]`, the closer `s[k]` of `s[0]`, and a balanced rest. */
  ghost predicate DyckSplit(s: string, k: int)
    decreases |s|, 0
  {
    1 <= k < |s| && IsOpener(s[0]) && s[k] == CloserOf(s[0]) && Dyck(s[1..k]) && Dyck(s[k + 1..])
  }

  lemma DyckStartsWithOpener(s: string)
    requires Dyck(s) && |s| > 0
    ensures IsOpener(s[0])
  {
    var k :| DyckSplit(s, k);
  }

  lemma {:induction false} DyckEndsWithCloser(s: string)
    requires Dyck(s) && |s| > 0
    ensures IsCloser(s[|s| - 1])
    decreases |s|
  {
    var k :| DyckSplit(s, k);
    if k + 1 < |s| {
      DyckEndsWithCloser(s[k + 1..]);
      assert s[k + 1..][|s[k + 1..]| - 1] == s[|s| - 1];
    }
  }

  lemma {:induction false} DyckConcat(x: string, y: string)
    requires Dyck(x) && Dyck(y)
    ensures Dyck(x + y)
    decreases |x|
  {
    if |x| == 0 {
      assert x + y == y;
    } else {
      var k :| DyckSplit(x, k);
      DyckConcat(x[k + 1..], y);
      var s := x + y;
      assert s[0] == x[0] && s[k] == x[k];
      assert s[1..k] == x[1..k];
      assert s[k + 1..] == x[k + 1..] + y;
      assert DyckSplit(s, k);
    }
  }

  /** Inserting a matched pair anywhere keeps a sequence balanced. */
  lemma {:induction false} DyckInsert(p: string, q: string, o: char)
    requires IsOpener(o) && Dyck(p + q)
    ensures Dyck(p + [o, CloserOf(o)] + q)
    decreases |p| + |q|, 1
  {
    var pair := [o, CloserOf(o)];
    assert Dyck(pair) by {
      assert pair[1..1] == [] && pair[2..] == [];
      assert DyckSplit(pair, 1);
    }
    if |p| == 0 {
      assert p + q == q && p + pair + q == pair + q;
      DyckConcat(pair, q);
    } else {
      var k :| DyckSplit(p + q, k);
      if |p| <= k {
        InsertBeforeCloser(p, q, o, k);
      } else {
        InsertAfterCloser(p, q, o, k);
      }
    }
  }

  /** The pair lands between the first opener and its closer. */
  lemma {:induction false} InsertBeforeCloser(p: string, q: string, o: char, k: int)
    requires IsOpener(o) && 0 < |p| <= k && DyckSplit(p + q, k)
    ensures Dyck(p + [o, CloserOf(o)] + q)
    decreases |p| + |q|, 0
  {
    var pair := [o, CloserOf(o)];
    var t, s := p + q, p + pair + q;
    var u1, u2 := p[1..], t[|p|..k];
    assert t[1..k] == u1 + u2;
    DyckInsert(u1, u2, o);
    assert s[0] == t[0];
    assert s[k + 2] == t[k];
    assert s[1..k + 2] == u1 + pair + u2;
    assert s[k + 3..] == t[k + 1..];
    assert DyckSplit(s, k + 2);
  }

  /** The pair lands in the balanced rest after the first closer. */
  lemma {:induction false} InsertAfterCloser(p: string, q: string, o: char, k: int)
    requires IsOpener(o) && k < |p| && DyckSplit(p + q, k)
    ensures Dyck(p + [o, CloserOf(o)] + q)
    decreases |p| + |q|, 0
  {
    var pair := [o, CloserOf(o)];
    var t, s := p + q, p + pair + q;
    var v1, v2 := p[k + 1..], t[|p|..];
    assert t[k + 1..] == v1 + v2;
    DyckInsert(v1, v2, o);
    assert s[0] == t[0] && s[k] == t[k];
    assert s[1..k] == t[1..k];
    assert s[k + 1..] == v1 + pair + v2;
    assert DyckSplit(s, k);
  }

  /** Removing an adjacent matched pair keeps a sequence balanced. */
  lemma {:induction false} DyckDelete(p: string, q: string, o: char)
    requires IsOpener(o) && Dyck(p + [o, CloserOf(o)] + q)
    ensures Dyck(p + q)
    decreases |p| + |q|, 1
  {
    var c := CloserOf(o);
    var s := p + [o, c] + q;
    var i := |p|;
    assert s[i] == o && s[i + 1] == c;
    var k :| DyckSplit(s, k);
    if i == 0 {
      if k == 1 {
        assert p + q == q == s[2..];
      } else {
        DyckStartsWithOpener(s[1..k]);
        assert false;
      }
    } else if i + 1 < k {
      DyckDeleteInside(p, q, o, k);
    } else if i + 1 == k {
      DyckEndsWithCloser(s[1..k]);
      assert false;
    } else if i == k {
      assert false;
    } else {
      DyckDeleteAfter(p, q, o, k);
    }
  }

  /** The removed pair lies inside the first balanced part. */
  lemma {:induction false} DyckDeleteInside(p: string, q: string, o: char, k: int)
    requires IsOpener(o) && DyckSplit(p + [o, CloserOf(o)] + q, k)
    requires 1 <= |p| && |p| + 1 < k
    ensures Dyck(p + q)
    decreases |p| + |q|, 0
  {
    var c := CloserOf(o);
    var s := p + [o, c] + q;
    var t := p + q;
    var i := |p|;
    var u1, u2 := p[1..], s[i + 2..k];
    assert s[1..k] == u1 + [o, c] + u2;
    DyckDelete(u1, u2, o);
    assert t[0] == s[0] && t[k - 2] == s[k];
    assert t[1..k - 2] == u1 + u2;
    assert t[k - 1..] == s[k + 1..];
    assert DyckSplit(t, k - 2);
  }

  /** The removed pair lies in the balanced rest after the first closer. */
  lemma {:induction false} DyckDeleteAfter(p: string, q: string, o: char, k: int)
    requires IsOpener(o) && DyckSplit(p + [o, CloserOf(o)] + q, k)
    requires k < |p|
    ensures Dyck(p + q)
    decreases |p| + |q|, 0
  {
    var c := CloserOf(o);
    var s := p + [o, c] + q;
    var t := p + q;
    var v1, v2 := p[k + 1..], q;
    assert v1 == s[k + 1..|p|];
    assert s[k + 1..] == v1 + [o, c] + v2;
    DyckDelete(v1, v2, o);
    assert t[0] == s[0] && t[k] == s[k];
    assert t[1..k] == s[1..k];
    assert t[k + 1..] == v1 + v2;
    assert DyckSplit(t, k);
  }

  /** In a balanced sequence an opener directly followed by a closer is followed by its own closer. */
  lemma {:induction false} AdjacentPairMatches(s: string, i: int)
    requires Dyck(s) && 0 <= i < |s| - 1
    requires IsOpener(s[i]) && IsCloser(s[i + 1])
    ensures s[i + 1] == CloserOf(s[i])
    decreases |s|
  {
    var k :| DyckSplit(s, k);
    if i == 0 {
      if k > 1 {
        DyckStartsWithOpener(s[1..k]);
        assert false;
      }
    } else if i + 1 < k {
      assert s[1..k][i - 1] == s[i] && s[1..k][i] == s[i + 1];
      AdjacentPairMatches(s[1..k], i - 1);
    } else if i + 1 == k {
      DyckEndsWithCloser(s[1..k]);
      assert false;
    } else if i == k {
      assert false;
    } else {
      assert s[k + 1..][i - k - 1] == s[i] && s[k + 1..][i - k] == s[i + 1];
      AdjacentPairMatches(s[k + 1..], i - k - 1);
    }
  }

  predicate AllClosers(stack: seq<char>)
  {
    forall i | 0 <= i < |stack| :: IsCloser(stack[i])
  }

  /** The openers still waiting for the closers on the stack, bottom first. */
  function Pending(stack: seq<char>): (r: string)
    requires AllClosers(stack)
    ensures |r| == |stack|
    ensures forall i | 0 <= i < |r| :: IsOpener(r[i]) && CloserOf(r[i]) == stack[i]
  {
    if |stack| == 0 then "" else Pending(stack[..|stack| - 1]) + [OpenerOf(stack[|stack| - 1])]
  }

  /**
   * The machine accepts exactly when the pending openers followed by the rest
   * of the input form a balanced sequence.
   */
  lemma {:induction false} MachineIffDyck(b: string, stack: seq<char>)
    requires forall i | 0 <= i < |b| :: IsOpener(b[i]) || IsCloser(b[i])
    requires AllClosers(stack)
    ensures Machine(b, stack) == Balanced <==> Dyck(Pending(stack) + b)
    decreases |b|
  {
    var pend := Pending(stack);
    if |b| == 0 {
      assert pend + b == pend;
      if |stack| > 0 && Dyck(pend) {
        DyckEndsWithCloser(pend);
        assert false;
      }
    } else if IsOpener(b[0]) {
      var stack' := stack + [CloserOf(b[0])];
      assert stack'[..|stack'| - 1] == stack;
      assert Pending(stack') == pend + [b[0]];
      assert Pending(stack') + b[1..] == pend + b;
      MachineIffDyck(b[1..], stack');
    } else if |stack| == 0 {
      assert pend + b == b;
    } else {
      var top := stack[|stack| - 1];
      var rest := stack[..|stack| - 1];
      var o := OpenerOf(top);
      assert pend == Pending(rest) + [o];
      assert pend + b == Pending(rest) + [o, b[0]] + b[1..];
      if top != b[0] {
        if Dyck(pend + b) {
          var s := pend + b;
          assert s[|pend| - 1] == o && s[|pend|] == b[0];
          AdjacentPairMatches(s, |pend| - 1);
          assert false;
        }
      } else {
        MachineIffDyck(b[1..], rest);
        if Dyck(Pending(rest) + b[1..]) {
          DyckInsert(Pending(rest), b[1..], o);
        }
        if Dyck(pend + b) {
          DyckDelete(Pending(rest), b[1..], o);
        }
      }
    }
  }

  /** The checker answers `true` exactly for input whose brackets outside strings are properly nested. */
  lemma BalancedIffDyck(code: string)
    ensures Scan(code, [], false) == Balanced <==> Dyck(Outside(code, false))
  {
    ScanIsMachine(code, [], false);
    MachineIffDyck(Outside(code, false), []);
    assert Pending([]) + Outside(code, false) == Outside(code, false);
  }

  /** The documented return values on small inputs. */
  lemma Examples()
    ensures Scan(")", [], false) == Unbalanced(-1)
    ensures Scan("(]", [], false) == Unbalanced(0)
    ensures Scan("((", [], false) == Unbalanced(2)
    ensures Scan("([)]", [], false) == Unbalanced(1)
    ensures Scan("(a \")\" b)", [], false) == Balanced
  {
  }
}
