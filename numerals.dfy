/**
 * Natural numbers as text, the way the capture loop prints them: Python's
 * str() (decimal) for keycodes in the "unsupported" diagnostic and hex()
 * (lower-case, "0x" prefix) for window ids in focus banners.  Each rendering
 * comes with the reader that recovers the number, so that a line of output
 * can be shown to name the keycode or window it was printed for.
 */
module Numerals {

  /** The character of digit `d`, lower-case letters above nine. */
  function DigitChar(d: nat): (c: char)
    requires d < 16
    ensures IsDigit(c, d + 1) && DigitValue(c) == d
  {
    if d < 10 then ('0' as int + d) as char else ('a' as int + d - 10) as char
  }

  /** Is `c` a digit of the given base? */
  predicate IsDigit(c: char, base: nat)
  {
    ('0' <= c <= '9' && c as int - '0' as int < base)
    || ('a' <= c <= 'f' && c as int - 'a' as int + 10 < base)
  }

  /** The value of a digit character (0 for anything else). */
  function DigitValue(c: char): nat
  {
    if '0' <= c <= '9' then c as int - '0' as int
    else if 'a' <= c <= 'f' then c as int - 'a' as int + 10
    else 0
  }

  /** The digits of `n` in `base`, most significant first, without leading zeros. */
  function Digits(n: nat, base: nat): (s: string)
    requires 2 <= base <= 16
    ensures |s| >= 1
    ensures forall i :: 0 <= i < |s| ==> IsDigit(s[i], base)
    ensures (s[0] == '0') == (n == 0)
    decreases n
  {
    if n < base then [DigitChar(n)]
    else
      DivideByBase(n, base);
      Digits(n / base, base) + [DigitChar(n % base)]
  }

  /** Facts about dividing by a base that the solver does not find unaided. */
  lemma DivideByBase(n: nat, base: nat)
    requires 2 <= base <= n
    ensures 1 <= n / base < n
    ensures n % base < base
    ensures n == n / base * base + n % base
  {
    var q, r := n / base, n % base;
    assert n == q * base + r;
    if q == 0 {
      assert false;
    }
    var t: nat := base - 2;
    assert q * base == 2 * q + q * t;
  }

  /** The number a string of digits denotes, read most significant digit first. */
  function Value(s: string, base: nat): nat
  {
    if s == [] then 0 else Value(s[..|s| - 1], base) * base + DigitValue(s[|s| - 1])
  }

  /** Python's str() of a natural number: decimal digits, no leading zero, reading back as `n`. */
  function Decimal(n: nat): (s: string)
    ensures |s| >= 1 && forall i :: 0 <= i < |s| ==> IsDigit(s[i], 10)
    ensures (s[0] == '0') == (n == 0)
    ensures n == 0 ==> s == "0"
    ensures Value(s, 10) == n
  {
    ValueOfDigits(n, 10);
    Digits(n, 10)
  }

  /** Python's hex() of a natural number: "0x", then lower-case hexadecimal digits reading back as `n`. */
  function Hex(n: nat): (s: string)
    ensures |s| >= 3 && s[..2] == "0x"
    ensures forall i :: 2 <= i < |s| ==> IsDigit(s[i], 16)
    ensures (s[2] == '0') == (n == 0)
    ensures n == 0 ==> s == "0x0"
    ensures Value(s[2..], 16) == n
  {
    ValueOfDigits(n, 16);
    var d := Digits(n, 16);
    assert ("0x" + d)[2..] == d;
    "0x" + d
  }

  /** Reading the digits back gives the number they were printed from. */
  lemma {:induction false} ValueOfDigits(n: nat, base: nat)
    requires 2 <= base <= 16
    ensures Value(Digits(n, base), base) == n
  {
    var s := Digits(n, base);
    if n < base {
      assert s[..0] == [];
    } else {
      DivideByBase(n, base);
      var hi := Digits(n / base, base);
      assert s[..|s| - 1] == hi;
      ValueOfDigits(n / base, base);
    }
  }

  /** The first position at or after `from` holding `c`, or |s| if there is none. */
  function IndexFrom(s: string, c: char, from: nat): (k: nat)
    requires from <= |s|
    ensures from <= k <= |s|
    ensures k < |s| ==> s[k] == c
    ensures forall j :: from <= j < k ==> s[j] != c
    decreases |s| - from
  {
    if from == |s| then |s|
    else if s[from] == c then from
    else IndexFrom(s, c, from + 1)
  }

  /** The number written at position `from`, delimited by the next space. */
  function NumberAt(s: string, from: nat, base: nat): nat
    requires from <= |s|
  {
    Value(s[from..IndexFrom(s, ' ', from)], base)
  }

  /** A number printed between some text and a space is read back by NumberAt. */
  lemma NumberAtDigits(prefix: string, n: nat, base: nat, rest: string)
    requires 2 <= base <= 16
    ensures NumberAt(prefix + Digits(n, base) + " " + rest, |prefix|, base) == n
  {
    var d := Digits(n, base);
    var s := prefix + d + " " + rest;
    var k := IndexFrom(s, ' ', |prefix|);
    assert s[|prefix| + |d|] == ' ';
    forall j | |prefix| <= j < |prefix| + |d|
      ensures s[j] != ' '
    {
      assert s[j] == d[j - |prefix|];
      assert IsDigit(d[j - |prefix|], base);
    }
    assert k == |prefix| + |d|;
    assert s[|prefix|..k] == d;
    ValueOfDigits(n, base);
  }
}
