/** What the decimal text of a number looks like, and which texts are read as numbers. */
module IntText {
  import opened Common

  function Pow10(k: nat): (p: nat)
    ensures p > 0
  {
    if k == 0 then 1 else 10 * Pow10(k - 1)
  }

  lemma DivTwice(n: nat, p: nat)
    requires p > 0
    ensures n / 10 / p == n / (10 * p)
  {
    var q := n / 10 / p;
    assert n == n / 10 * 10 + n % 10 && n / 10 == q * p + n / 10 % p;
    assert n == q * (10 * p) + (n / 10 % p * 10 + n % 10);
    DivUnique(n, 10 * p, q, n / 10 % p * 10 + n % 10);
  }

  lemma StrSplit(n: nat)
    requires n >= 10
    ensures Str(n) == Str(n / 10) + ["0123456789"[n % 10]]
  {}

  /** The digit that counts 10 to the k. */
  function Digit(n: nat, k: nat): (d: nat)
    ensures d < 10
  {
    n / Pow10(k) % 10
  }

  lemma DigitShift(n: nat, k: nat)
    ensures if k == 0 then Digit(n, k) == n % 10 else Digit(n, k) == Digit(n / 10, k - 1)
  {
    if k > 0 { DivTwice(n, Pow10(k - 1)); }
  }

  /** Digit k from the right counts 10 to the k, and there is no leading zero. */
  lemma {:induction false} StrDigit(n: nat, k: nat)
    requires k < |Str(n)|
    ensures Str(n)[|Str(n)| - 1 - k] == "0123456789"[Digit(n, k)]
    ensures n > 0 ==> Str(n)[0] != '0'
  {
    DigitShift(n, k);
    if n >= 10 {
      var front := Str(n / 10);
      StrSplit(n);
      assert Str(n)[0] == front[0] && (k > 0 ==> Str(n)[|front| - k] == front[|front| - k]);
      StrDigit(n / 10, if k == 0 then 0 else k - 1);
      hide Str;
    }
    hide Digit;
  }

  // ----- int() on ASCII text -----

  predicate Blank(s: string) { forall c :: c in s ==> c in "\t\n\r " || c == '\U{b}' || c == '\U{c}' }

  predicate Bare(s: string) { s != [] && !IsSpace(s[0]) && !IsSpace(s[|s| - 1]) }

  lemma BlankIsSpace(s: string, c: char)
    requires Blank(s) && c in s
    ensures IsSpace(c)
  {}

  lemma {:induction false} StripFront(a: string, s: string)
    requires Blank(a)
    ensures Strip(a + s) == Strip(s)
  {
    if a == [] {
      assert a + s == s;
    } else {
      assert a[0] in a;
      BlankIsSpace(a, a[0]);
      assert forall c :: c in a[1..] ==> c in a;
      StripFront(a[1..], s);
      assert (a + s)[0] == a[0] && (a + s)[1..] == a[1..] + s;
    }
  }

  lemma {:induction false} StripBack(s: string, b: string)
    requires Bare(s) && Blank(b)
    ensures Strip(s + b) == s
  {
    if b == [] {
      assert s + b == s;
    } else {
      var n := |b| - 1;
      assert b[n] in b;
      BlankIsSpace(b, b[n]);
      assert forall c :: c in b[..n] ==> c in b;
      StripBack(s, b[..n]);
      assert (s + b)[0] == s[0] && (s + b)[|s| + n] == b[n] && (s + b)[..|s| + n] == s + b[..n];
    }
  }

  /** Blanks around a number are ignored. */
  lemma BlanksIgnored(a: string, s: string, b: string)
    requires Bare(s) && Blank(a) && Blank(b)
    ensures ParseInt(a + s + b) == ParseInt(s)
  {
    StripFront(a, s + b);
    StripBack(s, b);
    StripBack(s, "");
    assert a + s + b == a + (s + b) && s + "" == s;
    hide Strip, ParseDigits;
  }

  /** A sign goes in front. */
  lemma SignedNumber(n: int)
    requires n >= 0
    ensures ParseInt("+" + Str(n)) == Some(n) && ParseInt("-" + Str(n)) == Some(-n) && ParseInt(Str(n)) == Some(n)
  {
    ParseDigitsStr(n);
    StrHasDigits(n);
    hide Str;
    ParseSigned(Str(n), n);
    var digits := Str(n);
    var plus := "+" + digits;
    assert digits[0] in digits && digits[|digits| - 1] in digits;
    hide ParseDigits;
    StripBack(plus, "");
    assert plus + "" == plus && plus[1..] == digits;
  }

  predicate OnlyDigits(s: string) { s != [] && forall c :: c in s ==> '0' <= c <= '9' }

  /** An underscore between digits is ignored. */
  lemma {:induction false} UnderscoreIgnored(s: string, t: string)
    requires OnlyDigits(s) && OnlyDigits(t)
    ensures ParseDigits(s + "_" + t) == ParseDigits(s + t)
  {
    hide ParseDigits;
    var n := |t| - 1;
    var front, last := t[..n], t[n];
    assert t == front + [last] && last in t && s[|s| - 1] in s;
    if n == 0 {
      assert s + "_" + t == s + "_" + [last] && s + t == s + [last];
      AfterUnderscore(s, last);
      AfterDigit(s, last);
    } else {
      assert front[n - 1] in t;
      assert forall c :: c in front ==> c in t;
      UnderscoreIgnored(s, front);
      assert s + "_" + t == s + "_" + front + [last] && s + t == s + front + [last];
      AfterDigit(s + "_" + front, last);
      AfterDigit(s + front, last);
    }
  }

  function Grown(front: Option<nat>, c: char): Option<nat> {
    if front.None? || DigitValue(c).None? then None else Some(10 * front.value + DigitValue(c).value)
  }

  lemma AfterDigit(s: string, c: char)
    requires s != [] && s[|s| - 1] != '_'
    ensures ParseDigits(s + [c]) == Grown(ParseDigits(s), c)
  {
    hide DigitValue, WithoutLast;
    WithoutAppended(s, c);
    assert (s + [c])[|s|] == c;
  }

  lemma AfterUnderscore(s: string, c: char)
    requires s != []
    ensures ParseDigits(s + "_" + [c]) == Grown(ParseDigits(s), c)
  {
    var longer := s + "_" + [c];
    assert longer[|s|] == '_' && longer[..|s|] == s && longer[|s| + 1] == c;
    assert WithoutLast(longer) == s;
    hide DigitValue, WithoutLast;
  }

  /** Digits are read from the left, each adding a power of ten; leading zeros are read too. */
  lemma {:induction false} PlainDigitsRead(s: string)
    requires OnlyDigits(s)
    ensures ParseDigits(s).Some? && ParseNat(s) == ParseDigits(s)
    ensures |s| == 1 ==> ParseDigits(s) == DigitValue(s[0])
    ensures |s| > 1 ==> ParseDigits(s) == Grown(ParseDigits(s[..|s| - 1]), s[|s| - 1])
  {
    var n := |s| - 1;
    assert s[n] in s;
    if n > 0 {
      assert s == s[..n] + [s[n]] && s[n - 1] in s;
      assert forall c :: c in s[..n] ==> c in s;
      PlainDigitsRead(s[..n]);
      AfterDigit(s[..n], s[n]);
    }
  }

  lemma {:induction false} NatIsDigits(s: string)
    requires ParseNat(s).Some?
    ensures OnlyDigits(s)
  {
    if |s| > 1 {
      NatIsDigits(s[..|s| - 1]);
      assert s == s[..|s| - 1] + [s[|s| - 1]];
    }
  }

  predicate DigitOrUnderscore(c: char) { '0' <= c <= '9' || c == '_' }

  /** Nothing else is read: only digits with single underscores between them. */
  lemma {:induction false} OnlyNumbersRead(s: string)
    requires ParseDigits(s).Some?
    ensures s != [] && '0' <= s[0] <= '9' && '0' <= s[|s| - 1] <= '9'
    ensures forall i :: 0 <= i < |s| ==> DigitOrUnderscore(s[i])
    ensures forall i :: 0 < i < |s| && s[i - 1] == '_' ==> s[i] != '_'
    decreases |s|
  {
    if |s| > 1 {
      var front := WithoutLast(s);
      OnlyNumbersRead(front);
      assert front == s[..|front|];
    }
  }
}
