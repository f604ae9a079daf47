/** Characters and number formatting used by several parts of the model. */
module Text {

  /** Unicode White_Space. */
  predicate IsWhitespace(c: char) {
    var n := c as int;
    || 0x09 <= n <= 0x0D || n == 0x20 || n == 0x85 || n == 0xA0 || n == 0x1680 || 0x2000 <= n <= 0x200A
    || n == 0x2028 || n == 0x2029 || n == 0x202F || n == 0x205F || n == 0x3000
  }

  /** Nothing is left after trimming. */
  predicate Blank(s: string) {
    forall c :: c in s ==> IsWhitespace(c)
  }

  const DIGITS := "0123456789abcdef"

  /** `n` written in decimal or hexadecimal, without leading zeros. */
  function Numeral(n: nat, hex: bool): (r: string)
    ensures r != "" && forall c :: c in r ==> c in DIGITS
    decreases n
  {
    var base := if hex then 16 else 10;
    if n < base then [DIGITS[n]] else Numeral(n / base, hex) + [DIGITS[n % base]]
  }

  function Decimal(n: int): string {
    if n < 0 then "-" + Numeral(-n, false) else Numeral(n, false)
  }

  lemma DigitsDiffer(a: nat, b: nat)
    requires a < 16 && b < 16 && DIGITS[a] == DIGITS[b]
    ensures a == b
  {
  }

  /** Different numbers have different numerals. */
  lemma {:induction false} NumeralInjective(a: nat, b: nat, hex: bool)
    requires Numeral(a, hex) == Numeral(b, hex)
    ensures a == b
    decreases a
  {
    var base := if hex then 16 else 10;
    var x, y := Numeral(a, hex), Numeral(b, hex);
    LastDigit(a, hex);
    LastDigit(b, hex);
    DigitsDiffer(a % base, b % base);
    if a >= base && b >= base {
      assert x[..|x| - 1] == Numeral(a / base, hex) && y[..|y| - 1] == Numeral(b / base, hex);
      NumeralInjective(a / base, b / base, hex);
    }
  }

  lemma LastDigit(n: nat, hex: bool)
    ensures var r, base := Numeral(n, hex), if hex then 16 else 10;
            r[|r| - 1] == DIGITS[n % base] && (|r| == 1 <==> n < base)
  {
    var base := if hex then 16 else 10;
    if n >= base {
      assert |Numeral(n / base, hex)| > 0;
    }
  }

  /** Texts in the order of their characters. */
  predicate TextAtMost(a: string, b: string) {
    a == "" || (b != "" && (a[0] < b[0] || (a[0] == b[0] && TextAtMost(a[1..], b[1..]))))
  }

  lemma {:induction false} TextOrder(a: string, b: string, c: string)
    ensures TextAtMost(a, b) || TextAtMost(b, a)
    ensures TextAtMost(a, b) && TextAtMost(b, a) ==> a == b
    ensures TextAtMost(a, b) && TextAtMost(b, c) ==> TextAtMost(a, c)
    decreases |a|
  {
    if a == "" || b == "" {
    } else {
      TextOrder(a[1..], b[1..], if c != "" then c[1..] else "");
      if a[0] == b[0] && a[1..] == b[1..] { assert a == [a[0]] + a[1..] == b; }
    }
  }

  /** The last `::` of a text with a plain name behind it is where the name begins. */
  lemma CutAtColons(a: string, x: string, b: string, y: string)
    requires a + "::" + x == b + "::" + y && ':' !in x && ':' !in y
    ensures a == b && x == y
  {
    LastColon(a, x);
    LastColon(b, y);
    assert (a + "::" + x)[..|a|] == a && (b + "::" + y)[..|b|] == b;
    assert (a + "::" + x)[|a| + 2..] == x && (b + "::" + y)[|b| + 2..] == y;
  }

  lemma LastColon(a: string, x: string)
    requires ':' !in x
    ensures var s := a + "::" + x; |s| == |a| + 2 + |x| && s[|a| + 1] == ':' && forall k :: |a| + 2 <= k < |s| ==> s[k] != ':'
  {
    var s := a + "::" + x;
    forall k | |a| + 2 <= k < |s| ensures s[k] != ':' {
      assert s[k] == x[k - |a| - 2] && x[k - |a| - 2] in x;
    }
  }
}
