/**
 * Character-level string operations of the exporter: the two global regex
 * replacements `/[{}]/g` and `/"/g`, and the decimal rendering of the date.
 */
module Text {

  predicate IsBrace(c: char)
  {
    c == '{' || c == '}'
  }

  predicate NoBraces(s: string)
  {
    forall i :: 0 <= i < |s| ==> !IsBrace(s[i])
  }

  function BraceCount(s: string): nat
  {
    if s == [] then 0 else (if IsBrace(s[0]) then 1 else 0) + BraceCount(s[1..])
  }

  /** `s.replace(/[{}]/g, "")`: every `{` and `}` removed. */
  function StripBraces(s: string): (r: string)
    ensures NoBraces(r)
    ensures |r| == |s| - BraceCount(s)
  {
    if s == [] then []
    else (if IsBrace(s[0]) then [] else [s[0]]) + StripBraces(s[1..])
  }

  /** Stripping a string that holds no brace leaves it as it is. */
  lemma {:induction false} StripBracesNoop(s: string)
    requires NoBraces(s)
    ensures StripBraces(s) == s
  {
    if s != [] {
      StripBracesNoop(s[1..]);
    }
  }

  /** Stripping twice is stripping once. */
  lemma StripBracesIdempotent(s: string)
    ensures StripBraces(StripBraces(s)) == StripBraces(s)
  {
    StripBracesNoop(StripBraces(s));
  }

  /** Stripping works character by character: it distributes over concatenation. */
  lemma {:induction false} StripBracesConcat(a: string, b: string)
    ensures StripBraces(a + b) == StripBraces(a) + StripBraces(b)
  {
    if a == [] {
      assert a + b == b;
    } else {
      assert (a + b)[0] == a[0];
      assert (a + b)[1..] == a[1..] + b;
      StripBracesConcat(a[1..], b);
    }
  }

  function QuoteCount(s: string): nat
  {
    if s == [] then 0 else (if s[0] == '"' then 1 else 0) + QuoteCount(s[1..])
  }

  const Quot := "&quot;"

  /** `s.replace(/"/g, "&quot;")`: each double quote becomes the entity; nothing else is escaped. */
  function EscapeQuotes(s: string): (r: string)
    ensures '"' !in r
    ensures |r| == |s| + 5 * QuoteCount(s)
  {
    if s == [] then []
    else (if s[0] == '"' then Quot else [s[0]]) + EscapeQuotes(s[1..])
  }

  /** Text without a double quote passes through unchanged. */
  lemma {:induction false} EscapeQuotesNoop(s: string)
    requires '"' !in s
    ensures EscapeQuotes(s) == s
  {
    if s != [] {
      EscapeQuotesNoop(s[1..]);
    }
  }

  /** Escaping twice is escaping once. */
  lemma EscapeQuotesIdempotent(s: string)
    ensures EscapeQuotes(EscapeQuotes(s)) == EscapeQuotes(s)
  {
    EscapeQuotesNoop(EscapeQuotes(s));
  }

  /** Escaping works character by character: it distributes over concatenation. */
  lemma {:induction false} EscapeQuotesConcat(a: string, b: string)
    ensures EscapeQuotes(a + b) == EscapeQuotes(a) + EscapeQuotes(b)
  {
    if a == [] {
      assert a + b == b;
    } else {
      assert (a + b)[0] == a[0];
      assert (a + b)[1..] == a[1..] + b;
      EscapeQuotesConcat(a[1..], b);
    }
  }

  /** What an HTML reader does with the escaped attribute: `&quot;` back to `"`. */
  function UnescapeQuotes(s: string): string
  {
    if s == [] then []
    else if |s| >= |Quot| && s[..|Quot|] == Quot then "\"" + UnescapeQuotes(s[|Quot|..])
    else [s[0]] + UnescapeQuotes(s[1..])
  }

  /**
   * Escaping loses nothing as long as the text holds no `&`: reading the
   * entity back yields the original title or URL. (An `&` is passed through
   * unescaped, so a literal `&quot;` in a title would read back as `"`.)
   */
  lemma {:induction false} UnescapeEscape(s: string)
    requires '&' !in s
    ensures UnescapeQuotes(EscapeQuotes(s)) == s
  {
    if s != [] {
      var rest := EscapeQuotes(s[1..]);
      UnescapeEscape(s[1..]);
      if s[0] == '"' {
        assert EscapeQuotes(s) == Quot + rest;
        assert (Quot + rest)[..|Quot|] == Quot;
        assert (Quot + rest)[|Quot|..] == rest;
      } else {
        assert EscapeQuotes(s) == [s[0]] + rest;
        assert ([s[0]] + rest)[1..] == rest;
      }
    }
  }

  /** The example of an escaped title: `He said "hi"`. */
  lemma EscapeExample()
    ensures EscapeQuotes("He said " + "\"" + "hi" + "\"") == "He said " + "&quot;" + "hi" + "&quot;"
  {
    var q := "\"";
    var a, b := "He said ", "hi";
    assert '"' !in a && '"' !in b;
    EscapeQuotesNoop(a);
    EscapeQuotesNoop(b);
    assert EscapeQuotes(q) == Quot;
    EscapeQuotesConcat(a, q);
    EscapeQuotesConcat(a + q, b);
    EscapeQuotesConcat(a + q + b, q);
  }

  // Decimal numerals

  predicate IsDigit(c: char)
  {
    '0' <= c <= '9'
  }

  predicate AllDigits(s: string)
  {
    forall i :: 0 <= i < |s| ==> IsDigit(s[i])
  }

  function DigitChar(d: nat): (c: char)
    requires d < 10
    ensures IsDigit(c)
  {
    ('0' as int + d) as char
  }

  /** The number a string of decimal digits denotes. */
  function DigitsValue(s: string): nat
    requires AllDigits(s)
  {
    if s == [] then 0
    else DigitsValue(s[..|s| - 1]) * 10 + (s[|s| - 1] as int - '0' as int)
  }

  /** `String(n)` for a non-negative integer. */
  function NatString(n: nat): (s: string)
    ensures |s| >= 1 && AllDigits(s)
  {
    if n < 10 then [DigitChar(n)] else NatString(n / 10) + [DigitChar(n % 10)]
  }

  /** `String(n)` for any integer: a minus sign before a negative number. */
  function IntString(n: int): (s: string)
    ensures |s| >= 1
    ensures n >= 0 ==> AllDigits(s)
  {
    if n < 0 then "-" + NatString(-n) else NatString(n)
  }

  /** Reading the numeral back yields the number. */
  lemma {:induction false} NatStringValue(n: nat)
    ensures DigitsValue(NatString(n)) == n
  {
    if n >= 10 {
      NatStringValue(n / 10);
      var s := NatString(n);
      assert s[..|s| - 1] == NatString(n / 10);
    }
  }

  /** A number below 10^k has at most k digits; one of at least 10^(k-1) at least k. */
  lemma {:induction false} NatStringLength(n: nat, k: nat)
    requires k >= 1 && (k == 1 || Pow10(k - 1) <= n) && n < Pow10(k)
    ensures |NatString(n)| == k
  {
    if n >= 10 {
      assert k >= 2;
      NatStringLength(n / 10, k - 1);
    }
  }

  function Pow10(k: nat): (p: nat)
    ensures p >= 1
  {
    if k == 0 then 1 else 10 * Pow10(k - 1)
  }

  /** `s.padStart(width, "0")`. */
  function PadStart(s: string, width: nat): (r: string)
    ensures |r| == if |s| >= width then |s| else width
    decreases width - |s|
  {
    if |s| >= width then s else PadStart("0" + s, width)
  }

  /** `String(n).padStart(2, "0")`, as for the month and the day. */
  function Pad2(n: int): string
  {
    PadStart(IntString(n), 2)
  }

  /** Every number from 0 to 99 becomes exactly two digits that read back as the number. */
  lemma Pad2Digits(n: int)
    requires 0 <= n < 100
    ensures |Pad2(n)| == 2 && AllDigits(Pad2(n))
    ensures DigitsValue(Pad2(n)) == n
  {
    NatStringValue(n);
    assert Pow10(0) == 1 && Pow10(1) == 10 && Pow10(2) == 100;
    assert IntString(n) == NatString(n);
    if n < 10 {
      NatStringLength(n, 1);
      var s := NatString(n);
      assert PadStart(s, 2) == PadStart("0" + s, 2) == "0" + s;
      assert ("0" + s)[..1] == "0";
    } else {
      NatStringLength(n, 2);
    }
  }
}
