/** Small shared types and the decimal notation of natural numbers. */
module Common {
  datatype Option<+T> = None | Some(value: T)

  ghost predicate Distinct<T>(xs: seq<T>) { forall i, j :: 0 <= i < j < |xs| ==> xs[i] != xs[j] }

  datatype Result<+T, +E> = Ok(value: T) | Err(error: E)

  // ----- lists -----

  /** The first position of `x`. */
  function IndexOf<T(==)>(xs: seq<T>, x: T): (i: nat)
    requires x in xs
    ensures i < |xs| && xs[i] == x
  {
    if xs[0] == x then 0 else 1 + IndexOf(xs[1..], x)
  }

  /** Python's range(start, end). */
  function Range(start: int, end: int): seq<int> {
    if start < end then seq(end - start, i requires i >= 0 => start + i) else []
  }

  lemma RangeAppend(start: int, end: int)
    requires start <= end
    ensures Range(start, end + 1) == Range(start, end) + [end]
  {}

  // ----- decimal notation: Python's str(n) and int(s) on digit strings -----

  const DIGITS := "0123456789"

  function DigitValue(c: char): Option<nat> {
    if '0' <= c <= '9' then Some(c as int - '0' as int) else None
  }

  function Str(n: nat): (s: string)
    ensures s != []
  {
    if n < 10 then [DIGITS[n]] else Str(n / 10) + [DIGITS[n % 10]]
  }

  /** None stands for the ValueError of int(). */
  function ParseNat(s: string): Option<nat> {
    if s == [] then None
    else
      var last := DigitValue(s[|s| - 1]);
      if last.None? then None
      else if |s| == 1 then last
      else
        var front := ParseNat(s[..|s| - 1]);
        if front.None? then None else Some(10 * front.value + last.value)
  }

  lemma {:induction false} ParseStr(n: nat)
    ensures ParseNat(Str(n)) == Some(n)
  {
    if n >= 10 {
      ParseStr(n / 10);
      assert Str(n)[..|Str(n)| - 1] == Str(n / 10);
    }
  }

  lemma {:induction false} StrHasDigits(n: nat)
    ensures forall c :: c in Str(n) ==> '0' <= c <= '9'
  {
    if n >= 10 { StrHasDigits(n / 10); }
  }

  lemma StrInjective(m: nat, n: nat)
    requires Str(m) == Str(n)
    ensures m == n
  {
    ParseStr(m);
    ParseStr(n);
  }

  // ----- int(s) and str(n) of any integer, on ASCII text -----

  predicate IsSpace(c: char) { '\t' <= c <= '\r' || c == ' ' }

  function Strip(s: string): string
    decreases |s|
  {
    if s != [] && IsSpace(s[0]) then Strip(s[1..])
    else if s != [] && IsSpace(s[|s| - 1]) then Strip(s[..|s| - 1])
    else s
  }

  /** All but the last digit, and an underscore before that. */
  function WithoutLast(s: string): (front: string)
    requires |s| > 1
    ensures |front| < |s|
  {
    var n := |s| - 1;
    if s[n - 1] == '_' then s[..n - 1] else s[..n]
  }

  /** Digits with single underscores between them. */
  function ParseDigits(s: string): Option<nat>
    decreases |s|
  {
    if s == [] then None
    else
      var n := |s| - 1;
      var last := DigitValue(s[n]);
      if last.None? then None
      else if n == 0 then last
      else
        var front := ParseDigits(WithoutLast(s));
        if front.None? then None else Some(10 * front.value + last.value)
  }

  /** None stands for the ValueError of int(). */
  function ParseInt(s: string): Option<int> {
    var t := Strip(s);
    if t == [] then None
    else
      var digits := ParseDigits(if t[0] == '-' || t[0] == '+' then t[1..] else t);
      if digits.None? then None
      else
        var n: int := digits.value;
        Some(if t[0] == '-' then -n else n)
  }

  function IntStr(n: int): string { if n < 0 then "-" + Str(-n) else Str(n) }

  lemma {:induction false} ParseDigitsStr(n: nat)
    ensures ParseDigits(Str(n)) == Some(n)
  {
    if n >= 10 {
      var front := Str(n / 10);
      ParseDigitsStr(n / 10);
      StrHasDigits(n / 10);
      assert front[|front| - 1] in front;
      OneMoreDigit(front, DIGITS[n % 10]);
    }
  }

  lemma OneMoreDigit(s: string, c: char)
    requires s != [] && s[|s| - 1] != '_' && ParseDigits(s).Some? && DigitValue(c).Some?
    ensures ParseDigits(s + [c]) == Some(10 * ParseDigits(s).value + DigitValue(c).value)
  {
    hide DigitValue, WithoutLast;
    WithoutAppended(s, c);
    assert (s + [c])[|s|] == c;
  }

  lemma WithoutAppended(s: string, c: char)
    requires s != [] && s[|s| - 1] != '_'
    ensures WithoutLast(s + [c]) == s
  {
    assert (s + [c])[..|s|] == s;
  }

  lemma ParseIntStr(n: int)
    ensures ParseInt(IntStr(n)) == Some(n)
  {
    var k := if n < 0 then -n else n;
    ParseDigitsStr(k);
    StrHasDigits(k);
    hide Str;
    ParseSigned(Str(k), k);
  }

  lemma ParseSigned(digits: string, k: int)
    requires ParseDigits(digits) == Some(k) && forall c :: c in digits ==> '0' <= c <= '9'
    ensures ParseInt(digits) == Some(k) && ParseInt("-" + digits) == Some(-k)
  {
    assert digits != [] && digits[0] in digits && digits[|digits| - 1] in digits;
    var signed := "-" + digits;
    hide ParseDigits;
    assert Strip(digits) == digits && Strip(signed) == signed;
    assert signed[1..] == digits;
  }

  // ----- arithmetic on naturals -----

  function Min(a: nat, b: nat): nat { if a <= b then a else b }

  function Max(a: nat, b: nat): nat { if a >= b then a else b }

  lemma MulLe(a: nat, b: nat, k: nat)
    requires a <= b
    ensures a * k <= b * k
  {
    var rest := (b - a) * k;
    assert b * k == a * k + rest;
  }

  lemma MulCancel(a: nat, b: nat, k: nat)
    requires a * k < b * k
    ensures a < b
  {
    if b <= a { MulLe(b, a, k); }
  }

  lemma DivUnique(n: nat, k: nat, q: nat, r: nat)
    requires k > 0 && n == q * k + r && r < k
    ensures n / k == q && n % k == r
  {
    var a, b := n / k, n % k;
    assert a * k + b == q * k + r;
    if a < q { MulLe(a + 1, q, k); } else if q < a { MulLe(q + 1, a, k); }
  }

  /** The quotient rounded up. */
  function CeilDiv(x: nat, k: nat): nat
    requires k > 0
  {
    (x + k - 1) / k
  }

  function RoundUp(x: nat, align: nat): nat
    requires align > 0
  {
    CeilDiv(x, align) * align
  }

  lemma CeilDivBounds(x: nat, k: nat)
    requires k > 0
    ensures x <= CeilDiv(x, k) * k < x + k
  {
    assert x + k - 1 == CeilDiv(x, k) * k + (x + k - 1) % k;
  }
}
