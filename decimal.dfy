/** The base-10 integer text Python's int(str) reads and str(int) writes.

    int(s) reads surrounding whitespace, an optional sign, and ASCII digits
    with single underscores between digits ("1_000"); any other text is a
    ValueError. str(n) writes an optional '-' and the decimal digits of |n|
    with no leading zeros. The interpreter's limit on the number of digits
    either conversion handles is applied by the callers in module Python,
    through DigitCount. */
module Decimal {

  /** The characters Python's str.isspace accepts, which int() skips around the number. */
  predicate IsSpace(c: char) {
    var k := c as int;
    (9 <= k <= 13) || (28 <= k <= 32) || k == 0x85 || k == 0xA0 || k == 0x1680
    || (0x2000 <= k <= 0x200A) || k == 0x2028 || k == 0x2029 || k == 0x202F
    || k == 0x205F || k == 0x3000
  }

  predicate IsDigit(c: char) {
    '0' <= c <= '9'
  }

  function TrimStart(s: string): string
    decreases |s|
  {
    if |s| > 0 && IsSpace(s[0]) then TrimStart(s[1..]) else s
  }

  function TrimEnd(s: string): string
    decreases |s|
  {
    if |s| > 0 && IsSpace(s[|s| - 1]) then TrimEnd(s[..|s| - 1]) else s
  }

  function Strip(s: string): string {
    TrimEnd(TrimStart(s))
  }

  /** Digits, possibly with single underscores between two digits. */
  predicate IsDigitGroup(d: string) {
    && |d| > 0
    && IsDigit(d[0])
    && IsDigit(d[|d| - 1])
    && (forall i :: 0 <= i < |d| ==> IsDigit(d[i]) || d[i] == '_')
    && (forall i :: 0 <= i < |d| - 1 ==> d[i] == '_' ==> d[i + 1] != '_')
  }

  /** The number the digits of `d` spell, underscores skipped. */
  function DigitsValue(d: string): nat
    decreases |d|
  {
    if d == [] then 0
    else
      var p := DigitsValue(d[..|d| - 1]);
      var c := d[|d| - 1];
      if IsDigit(c) then p * 10 + (c as int - '0' as int) else p
  }

  /** True when int(s) returns a number rather than raising ValueError. */
  predicate IsIntText(s: string) {
    var t := Strip(s);
    if |t| > 0 && (t[0] == '+' || t[0] == '-') then IsDigitGroup(t[1..]) else IsDigitGroup(t)
  }

  /** The number int(s) returns. */
  function Value(s: string): int
    requires IsIntText(s)
  {
    var t := Strip(s);
    if t[0] == '-' then -(DigitsValue(t[1..]) as int)
    else if t[0] == '+' then DigitsValue(t[1..])
    else DigitsValue(t)
  }

  /** The number of decimal digits in `s`: what the interpreter's digit limit
      counts, leaving out sign, whitespace and underscores. */
  function DigitCount(s: string): nat
    decreases |s|
  {
    if s == [] then 0 else DigitCount(s[..|s| - 1]) + (if IsDigit(s[|s| - 1]) then 1 else 0)
  }

  function DigitChar(d: nat): char
    requires d < 10
  {
    ('0' as int + d) as char
  }

  function ShowNat(n: nat): string
    decreases n
  {
    if n < 10 then [DigitChar(n)] else ShowNat(n / 10) + [DigitChar(n % 10)]
  }

  /** str(n) for a Python int. */
  function Show(n: int): string {
    if n < 0 then "-" + ShowNat(-n) else ShowNat(n)
  }

  lemma {:induction false} ShowNatIsDigits(n: nat)
    ensures |ShowNat(n)| > 0
    ensures forall i :: 0 <= i < |ShowNat(n)| ==> IsDigit(ShowNat(n)[i])
    decreases n
  {
    if n >= 10 {
      ShowNatIsDigits(n / 10);
      var s := ShowNat(n);
      assert s == ShowNat(n / 10) + [DigitChar(n % 10)];
      forall i | 0 <= i < |s| ensures IsDigit(s[i]) {
        if i < |ShowNat(n / 10)| {
          assert s[i] == ShowNat(n / 10)[i];
        }
      }
    }
  }

  lemma {:induction false} ShowNatValue(n: nat)
    ensures DigitsValue(ShowNat(n)) == n
    decreases n
  {
    if n >= 10 {
      ShowNatValue(n / 10);
      var s := ShowNat(n);
      assert s[..|s| - 1] == ShowNat(n / 10);
    }
  }

  /** int(str(n)) == n: the text str writes is text int reads back to the same number. */
  lemma ParseShow(n: int)
    ensures IsIntText(Show(n))
    ensures Value(Show(n)) == n
  {
    var m: nat := if n < 0 then -n else n;
    ShowNatIsDigits(m);
    ShowNatValue(m);
    var s := Show(n);
    var d := ShowNat(m);
    assert IsDigitGroup(d);
    if n < 0 {
      assert s == "-" + d;
      assert s[1..] == d;
    } else {
      assert s == d;
    }
    assert !IsSpace(s[0]) && !IsSpace(s[|s| - 1]);
    assert TrimStart(s) == s;
    assert Strip(s) == s;
  }
}
