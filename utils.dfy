/**
 * Identifier escaping: every character a JavaScript identifier may not hold
 * becomes the lower-case hexadecimal of its UTF-16 code unit, and a reserved
 * word or a leading digit gets a "_" in front. The reserved-word list is a
 * parameter of the model.
 */
module Utils {
  import opened Text

  /** The characters of `[._a-zA-Z0-9]`, which escaping leaves in place. */
  predicate IsAllowed(c: char)
  {
    c == '.' || c == '_' || ('a' <= c <= 'z') || ('A' <= c <= 'Z') || ('0' <= c <= '9')
  }

  predicate AllAllowed(s: string)
  {
    forall i | 0 <= i < |s| :: IsAllowed(s[i])
  }

  /**
   * The UTF-16 code units of a character: one below U+10000, otherwise a
   * surrogate pair. Without the `u` flag the pattern matches code units, so
   * each half of a pair is escaped on its own.
   */
  function CodeUnits(c: char): (r: seq<nat>)
    ensures 1 <= |r| <= 2
  {
    var v := c as int;
    if v < 0x1_0000 then [v]
    else [0xD800 + (v - 0x1_0000) / 0x400, 0xDC00 + (v - 0x1_0000) % 0x400]
  }

  function HexUnits(units: seq<nat>): (r: string)
    ensures AllAllowed(r)
  {
    if |units| == 0 then ""
    else
      var h := NatToString(units[0], 16);
      HexAllowed(units[0]);
      h + HexUnits(units[1..])
  }

  lemma {:induction false} HexAllowed(n: nat)
    ensures AllAllowed(NatToString(n, 16))
    decreases n
  {
    if n >= 16 {
      HexAllowed(n / 16);
      assert NatToString(n, 16) == NatToString(n / 16, 16) + [DigitChar(n % 16)];
    }
  }

  /** The replacement of one character. */
  function EscapeChar(c: char): (r: string)
    ensures AllAllowed(r) && |r| >= 1
  {
    if IsAllowed(c) then [c] else HexUnits(CodeUnits(c))
  }

  /** `id.replace(/[^._a-zA-Z0-9]/gim, ...)`, one character at a time. */
  function Escape(id: string): (r: string)
    ensures AllAllowed(r)
    ensures |r| >= |id|
  {
    if |id| == 0 then "" else EscapeChar(id[0]) + Escape(id[1..])
  }

  predicate StartsWithDigit(s: string)
  {
    |s| > 0 && IsDigit(s[0])
  }

  predicate NeedsPrefix(escaped: string, reserved: set<string>)
  {
    escaped in reserved || StartsWithDigit(escaped)
  }

  /** `encodeIdentifier`: escape, then prefix "_" when the result is reserved or starts with a digit. */
  function EncodeIdentifier(id: string, reserved: set<string>): (r: string)
    ensures AllAllowed(r)
  {
    var escaped := Escape(id);
    if NeedsPrefix(escaped, reserved) then "_" + escaped else escaped
  }

  /** Escaping works character by character: it distributes over concatenation. */
  lemma {:induction false} EscapeConcat(a: string, b: string)
    ensures Escape(a + b) == Escape(a) + Escape(b)
    decreases |a|
  {
    if |a| == 0 {
      assert a + b == b;
    } else {
      assert (a + b)[0] == a[0];
      assert (a + b)[1..] == a[1..] + b;
      EscapeConcat(a[1..], b);
    }
  }

  /** A string of allowed characters escapes to itself. */
  lemma {:induction false} EscapeAllowed(s: string)
    requires AllAllowed(s)
    ensures Escape(s) == s
    decreases |s|
  {
    if |s| > 0 {
      EscapeAllowed(s[1..]);
    }
  }

  /** A non-allowed character is replaced by the hexadecimal of its code; an allowed one is kept. */
  lemma EscapeOne(c: char)
    ensures IsAllowed(c) ==> Escape([c]) == [c]
    ensures !IsAllowed(c) && (c as int) < 0x1_0000 ==> Escape([c]) == NatToString(c as int, 16)
  {
    assert Escape([c]) == EscapeChar(c) + Escape([]);
    if !IsAllowed(c) && (c as int) < 0x1_0000 {
      assert CodeUnits(c) == [c as int];
      assert HexUnits([c as int]) == NatToString(c as int, 16) + HexUnits([]);
    }
  }

  /** The result gains a leading "_" exactly when the escaped text is reserved or starts with a digit. */
  lemma PrefixIff(id: string, reserved: set<string>)
    ensures EncodeIdentifier(id, reserved) == "_" + Escape(id) <==> NeedsPrefix(Escape(id), reserved)
  {
    var e := Escape(id);
    if !NeedsPrefix(e, reserved) {
      assert |"_" + e| != |e|;
    }
  }

  /** An allowed, non-reserved name that does not start with a digit comes out unchanged. */
  lemma EncodeIdentity(id: string, reserved: set<string>)
    requires AllAllowed(id) && id !in reserved && !StartsWithDigit(id)
    ensures EncodeIdentifier(id, reserved) == id
  {
    EscapeAllowed(id);
  }

  /** Distinct source names can collide: "a-" and "a2d" both encode to "a2d". */
  lemma EncodeCollides(reserved: set<string>)
    requires "a2d" !in reserved
    ensures EncodeIdentifier("a-", reserved) == EncodeIdentifier("a2d", reserved) == "a2d"
  {
    assert "a-"[1..] == "-";
    assert Escape("a-") == EscapeChar('a') + Escape("-");
    EscapeOne('-');
    assert NatToString(45, 16) == NatToString(2, 16) + [DigitChar(13)];
    assert Escape("-") == "2d";
    assert Escape("a-") == "a2d";
    EncodeIdentity("a2d", reserved);
  }
}

/** Fresh temporaries: a module-level counter behind a fixed prefix. */
module UniqueIdentifier {
  import opened Text

  const Prefix: string := "__ll_tmp_id_"

  /** The identifier the counter value `k` produces. */
  function NameFor(k: nat): string
  {
    Prefix + Decimal(k)
  }

  lemma {:induction false} DecimalInjective(a: nat, b: nat)
    requires NatToString(a, 10) == NatToString(b, 10)
    ensures a == b
    decreases a
  {
    var sa, sb := NatToString(a, 10), NatToString(b, 10);
    if a < 10 && b < 10 {
      DigitCharInjective(a, b);
    } else if a < 10 || b < 10 {
      assert false;
    } else {
      var ha, hb := NatToString(a / 10, 10), NatToString(b / 10, 10);
      assert sa == ha + [DigitChar(a % 10)];
      assert sb == hb + [DigitChar(b % 10)];
      assert |ha| == |hb|;
      assert ha == sa[..|sa| - 1];
      assert hb == sb[..|sb| - 1];
      DigitCharInjective(a % 10, b % 10);
      DecimalInjective(a / 10, b / 10);
    }
  }

  lemma DigitCharInjective(a: nat, b: nat)
    requires a < 36 && b < 36 && DigitChar(a) == DigitChar(b)
    ensures a == b
  {
  }

  /** Different counter values give different identifiers. */
  lemma NameForInjective(a: nat, b: nat)
    requires NameFor(a) == NameFor(b)
    ensures a == b
  {
    var da, db := Decimal(a), Decimal(b);
    assert da == NameFor(a)[|Prefix|..];
    assert db == NameFor(b)[|Prefix|..];
    DecimalInjective(a, b);
  }

  /** `uniqueIdentifier` with its module-level `lastIdentifierNumber`. */
  class Generator {
    var lastIdentifierNumber: nat
    /** Every identifier handed out so far, in order. */
    ghost var issued: seq<string>

    ghost predicate Valid()
      reads this
    {
      lastIdentifierNumber == |issued| + 1
      && forall i | 0 <= i < |issued| :: issued[i] == NameFor(i + 1)
    }

    constructor()
      ensures Valid() && lastIdentifierNumber == 1 && issued == []
    {
      lastIdentifierNumber := 1;
      issued := [];
    }

    /** Returns the prefix followed by the counter, then increments the counter. */
    method Next() returns (id: string)
      requires Valid()
      modifies this
      ensures Valid()
      ensures id == NameFor(old(lastIdentifierNumber))
      ensures lastIdentifierNumber == old(lastIdentifierNumber) + 1
      ensures id !in old(issued)
      ensures issued == old(issued) + [id]
    {
      id := NameFor(lastIdentifierNumber);
      forall i | 0 <= i < |issued|
        ensures issued[i] != id
      {
        if issued[i] == id {
          NameForInjective(i + 1, lastIdentifierNumber);
        }
      }
      lastIdentifierNumber := lastIdentifierNumber + 1;
      issued := issued + [id];
    }
  }

  /** A fresh generator's first identifier is "__ll_tmp_id_1". */
  method FirstIdentifier() returns (id: string)
    ensures id == "__ll_tmp_id_1"
  {
    var g := new Generator();
    id := g.Next();
  }
}
