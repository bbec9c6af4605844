/** Character-level helpers shared by every record of the model: Ruby's notion of a
    blank string (ActiveSupport's `blank?`) and Ruby's zero-padded decimal format
    `"%0<width>d"`, together with the facts about widths and values the key
    derivation relies on. */
module Text {

  /** The characters matched by `[[:space:]]` in Ruby, which ActiveSupport uses to decide
      whether a string is blank. */
  predicate IsSpace(c: char) {
    c == ' ' || c == '\t' || c == '\n' || c == '\U{B}' || c == '\U{C}' || c == '\r' ||
    c == '\U{85}' || c == '\U{A0}' || c == '\U{1680}' || ('\U{2000}' <= c <= '\U{200A}') ||
    c == '\U{2028}' || c == '\U{2029}' || c == '\U{202F}' || c == '\U{205F}' || c == '\U{3000}'
  }

  /** `s.blank?`: empty, or made of white space only. */
  predicate Blank(s: string) {
    forall i :: 0 <= i < |s| ==> IsSpace(s[i])
  }

  predicate IsDigit(c: char) {
    '0' <= c <= '9'
  }

  predicate AllDigits(s: string) {
    forall i :: 0 <= i < |s| ==> IsDigit(s[i])
  }

  function Pow10(k: nat): (r: nat)
    ensures r >= 1
  {
    if k == 0 then 1 else 10 * Pow10(k - 1)
  }

  function DigitValue(c: char): (d: nat)
    requires IsDigit(c)
    ensures d < 10
  {
    (c as int) - ('0' as int)
  }

  function DigitChar(d: nat): (c: char)
    requires d < 10
    ensures IsDigit(c) && DigitValue(c) == d
  {
    (('0' as int) + d) as char
  }

  /** The numeric value of a string of decimal digits, most significant digit first. */
  function Value(s: string): nat
    requires AllDigits(s)
  {
    if s == [] then 0 else 10 * Value(s[..|s| - 1]) + DigitValue(s[|s| - 1])
  }

  /** The shortest decimal rendering of `n` (Ruby's `n.to_s` for a non-negative integer). */
  function Decimal(n: nat): (s: string)
    ensures |s| >= 1 && AllDigits(s)
  {
    if n < 10 then [DigitChar(n)] else Decimal(n / 10) + [DigitChar(n % 10)]
  }

  function Zeros(k: nat): (s: string)
    ensures |s| == k && AllDigits(s)
    ensures forall i :: 0 <= i < k ==> s[i] == '0'
  {
    if k == 0 then [] else Zeros(k - 1) + ['0']
  }

  /** Ruby's `"%0<width>d" % n` for `n >= 0`: the decimal rendering of `n`, left-padded
      with zeros to `width` characters, and never truncated. Its digits are worth `n`
      (`ZeroPadValue`). */
  function ZeroPad(n: nat, width: nat): (s: string)
    ensures |s| >= width && |s| >= 1
    ensures width >= 1 ==> (|s| == width <==> n < Pow10(width))
  {
    var digits := Decimal(n);
    var padding := if width > |digits| then width - |digits| else 0;
    DecimalLength(n, if width >= 1 then width else 1);
    Zeros(padding) + digits
  }

  /** Reading back a padded rendering gives the number. */
  lemma ZeroPadValue(n: nat, width: nat)
    ensures AllDigits(ZeroPad(n, width)) && Value(ZeroPad(n, width)) == n
  {
    var digits := Decimal(n);
    DecimalValue(n);
    ValueZerosPrefix(if width > |digits| then width - |digits| else 0, digits);
  }

  /** Ruby's `"%0<width>d" % n` for any integer: a negative number is printed with a
      leading minus sign that occupies one position of the width. What the digits are
      worth is stated by `FormatIntValue`. */
  function FormatInt(n: int, width: nat): (s: string)
    ensures |s| >= width && |s| >= 1
    ensures width >= 1 ==> (|s| == width <==> -(Pow10(width - 1) as int) < n < Pow10(width))
  {
    if n >= 0 then ZeroPad(n, width)
    else "-" + ZeroPad(-n, if width > 0 then width - 1 else 0)
  }

  /** Reading back a formatted integer: the digits of a non-negative number are worth the
      number; a negative number is a minus sign followed by the digits of its magnitude. */
  lemma FormatIntValue(n: int, width: nat)
    ensures n >= 0 ==> AllDigits(FormatInt(n, width)) && Value(FormatInt(n, width)) == n
    ensures n < 0 ==> FormatInt(n, width)[0] == '-' && AllDigits(FormatInt(n, width)[1..]) &&
                      Value(FormatInt(n, width)[1..]) == -n
  {
    if n >= 0 {
      ZeroPadValue(n, width);
    } else {
      var body := ZeroPad(-n, if width > 0 then width - 1 else 0);
      ZeroPadValue(-n, if width > 0 then width - 1 else 0);
      assert FormatInt(n, width)[1..] == body;
    }
  }

  /** Reading back the shortest rendering gives the number. */
  lemma {:induction false} DecimalValue(n: nat)
    ensures Value(Decimal(n)) == n
  {
    if n >= 10 {
      DecimalValue(n / 10);
      var s := Decimal(n);
      assert s[..|s| - 1] == Decimal(n / 10);
    }
  }

  /** A rendering of `n` fits in `k >= 1` characters exactly when `n < 10^k`. */
  lemma {:induction false} DecimalLength(n: nat, k: nat)
    requires k >= 1
    ensures |Decimal(n)| <= k <==> n < Pow10(k)
  {
    if n >= 10 {
      if k == 1 {
        assert |Decimal(n)| == |Decimal(n / 10)| + 1;
      } else {
        DecimalLength(n / 10, k - 1);
      }
    } else {
      assert Pow10(k) >= 10 by { PowerAtLeastTen(k); }
    }
  }

  lemma {:induction false} PowerAtLeastTen(k: nat)
    requires k >= 1
    ensures Pow10(k) >= 10
  {
    if k > 1 {
      PowerAtLeastTen(k - 1);
    }
  }

  /** Leading zeros do not change the value of a digit string. */
  lemma {:induction false} ValueZerosPrefix(k: nat, s: string)
    requires AllDigits(s)
    ensures AllDigits(Zeros(k) + s) && Value(Zeros(k) + s) == Value(s)
  {
    var t := Zeros(k) + s;
    if s == [] {
      assert t == Zeros(k);
      ValueOfZeros(k);
    } else {
      ValueZerosPrefix(k, s[..|s| - 1]);
      assert t[..|t| - 1] == Zeros(k) + s[..|s| - 1];
    }
  }

  lemma {:induction false} ValueOfZeros(k: nat)
    ensures Value(Zeros(k)) == 0
  {
    if k > 0 {
      ValueOfZeros(k - 1);
      assert Zeros(k)[..k - 1] == Zeros(k - 1);
    }
  }

  /** The shortest rendering of a number has no leading zero. */
  lemma {:induction false} DecimalCanonical(n: nat)
    ensures Decimal(n)[0] != '0' || Decimal(n) == "0"
  {
    if n >= 10 {
      DecimalCanonical(n / 10);
      assert Decimal(n)[0] == Decimal(n / 10)[0];
    }
  }

  /** Appending a digit multiplies the value by ten and adds the digit. */
  lemma ValueSnoc(s: string, c: char)
    requires AllDigits(s) && IsDigit(c)
    ensures AllDigits(s + [c]) && Value(s + [c]) == 10 * Value(s) + DigitValue(c)
  {
    assert (s + [c])[..|s|] == s;
  }

  /** Two digit strings of the same length with the same value are the same string. */
  lemma {:induction false} ValueInjective(a: string, b: string)
    requires AllDigits(a) && AllDigits(b) && |a| == |b| && Value(a) == Value(b)
    ensures a == b
  {
    if a != [] {
      var n := |a| - 1;
      assert DigitValue(a[n]) == Value(a) % 10 && DigitValue(b[n]) == Value(b) % 10;
      ValueInjective(a[..n], b[..n]);
      assert a == a[..n] + [a[n]] && b == b[..n] + [b[n]];
    }
  }

  /** The padded rendering is the only digit string of its width with its value: any
      digit string of `width` characters whose value is `n` is `ZeroPad(n, width)`. */
  lemma ZeroPadUnique(n: nat, width: nat, s: string)
    requires width >= 1 && AllDigits(s) && |s| == width && Value(s) == n
    ensures ZeroPad(n, width) == s
  {
    DecimalLength(n, width);
    ValueBound(s);
    ZeroPadValue(n, width);
    ValueInjective(ZeroPad(n, width), s);
  }

  /** A digit string of `k` characters is worth less than `10^k`. */
  lemma {:induction false} ValueBound(s: string)
    requires AllDigits(s)
    ensures Value(s) < Pow10(|s|)
  {
    if s != [] {
      ValueBound(s[..|s| - 1]);
    }
  }

  /** A string of digits is never blank unless it is empty. */
  lemma DigitsAreNotBlank(s: string)
    requires AllDigits(s) && |s| >= 1
    ensures !Blank(s)
  {
    assert IsDigit(s[0]);
  }
}
