/** Decimal digits: printing numbers, reading them back. */
module Decimal {
  import opened Wrappers

  function Power10(k: nat): (p: nat)
    ensures p > 0
  {
    if k == 0 then 1 else 10 * Power10(k - 1)
  }

  predicate IsDigit(c: char) {
    '0' <= c <= '9'
  }

  predicate IsDigits(s: string) {
    forall k | 0 <= k < |s| :: IsDigit(s[k])
  }

  function Value(s: string): (v: int)
    requires IsDigits(s)
    ensures v >= 0
  {
    if s == "" then 0 else 10 * Value(s[..|s| - 1]) + (s[|s| - 1] as int - '0' as int)
  }

  /** The digits of n, most significant first, none for zero. */
  function Digits(n: nat): (s: string)
    ensures IsDigits(s) && (n > 0 ==> s != "" && s[0] != '0')
  {
    if n == 0 then ""
    else
      var rest := Digits(n / 10);
      rest + [('0' as int + n % 10) as char]
  }

  function Print(n: nat): (s: string)
    ensures IsDigits(s) && s != ""
  {
    if n == 0 then "0" else Digits(n)
  }

  function PrintInt(n: int): string {
    if n < 0 then "-" + Print(-n) else Print(n)
  }

  /** `SetString` in base ten: an optional sign and at least one digit. */
  function ParseInt(s: string): Option<int> {
    var signed := s != "" && (s[0] == '-' || s[0] == '+');
    var digits := if signed then s[1..] else s;
    if digits == "" || !IsDigits(digits) then None
    else Some(if signed && s[0] == '-' then -Value(digits) else Value(digits))
  }

  function Repeat(c: char, n: nat): string {
    seq(n, _ => c)
  }

  lemma {:induction false} ValueDigits(n: nat)
    ensures Value(Digits(n)) == n
  {
    if n > 0 {
      ValueDigits(n / 10);
      assert Digits(n)[..|Digits(n)| - 1] == Digits(n / 10);
    }
  }

  lemma ValuePrint(n: nat)
    ensures Value(Print(n)) == n
  {
    ValueDigits(n);
    assert Value("0") == 0 by {
      assert "0"[..0] == "";
    }
  }

  lemma PrintInjective(m: nat, n: nat)
    requires Print(m) == Print(n)
    ensures m == n
  {
    ValuePrint(m);
    ValuePrint(n);
  }

  lemma {:induction false} ValueBelow(s: string)
    requires IsDigits(s)
    ensures Value(s) < Power10(|s|)
  {
    if s != "" {
      ValueBelow(s[..|s| - 1]);
    }
  }

  lemma {:induction false} DigitsLength(n: nat, k: nat)
    requires n < Power10(k)
    ensures |Digits(n)| <= k
  {
    if n > 0 && k > 0 {
      DigitsLength(n / 10, k - 1);
    }
  }

  lemma PrintLength(n: nat, k: nat)
    requires n < Power10(k) && k > 0
    ensures |Print(n)| <= k
  {
    DigitsLength(n, k);
  }

  lemma {:induction false} Power10Add(a: nat, b: nat)
    ensures Power10(a + b) == Power10(a) * Power10(b)
  {
    if b > 0 {
      Power10Add(a, b - 1);
      assert Power10(a + b) == 10 * Power10(a + b - 1);
      assert Power10(a) * Power10(b) == 10 * (Power10(a) * Power10(b - 1));
    }
  }

  lemma ValueSnoc(s: string, c: char)
    requires IsDigits(s) && IsDigit(c)
    ensures IsDigits(s + [c]) && Value(s + [c]) == 10 * Value(s) + (c as int - '0' as int)
  {
    assert (s + [c])[..|s|] == s;
  }

  lemma Shifted(v: int, p: int, x: int, d: int)
    ensures 10 * (v * p + x) + d == v * (10 * p) + (10 * x + d)
  {
    assert v * (10 * p) == 10 * (v * p);
  }

  lemma {:induction false} ValueConcat(s: string, t: string)
    requires IsDigits(s) && IsDigits(t)
    ensures IsDigits(s + t)
    ensures Value(s + t) == Value(s) * Power10(|t|) + Value(t)
  {
    if t == "" {
      assert s + t == s;
    } else {
      var front, c := t[..|t| - 1], t[|t| - 1];
      assert Power10(|t|) == 10 * Power10(|front|);
      hide Value, Power10;
      ValueConcat(s, front);
      ValueSnoc(s + front, c);
      ValueSnoc(front, c);
      Shifted(Value(s), Power10(|front|), Value(front), c as int - '0' as int);
      assert t == front + [c] && s + t == s + front + [c];
    }
  }

  lemma {:induction false} ValueZeros(n: nat)
    ensures IsDigits(Repeat('0', n)) && Value(Repeat('0', n)) == 0
  {
    if n > 0 {
      ValueZeros(n - 1);
      assert Repeat('0', n)[..n - 1] == Repeat('0', n - 1);
    }
  }

  /** Leading zeros apart, a number has one decimal text. */
  lemma {:induction false} DigitsOfValue(s: string)
    requires IsDigits(s) && (s != "" ==> s[0] != '0')
    ensures Digits(Value(s)) == s
  {
    if s != "" {
      var front, d := s[..|s| - 1], s[|s| - 1] as int - '0' as int;
      DigitsOfValue(front);
      if front == "" {
        assert Value(s) == d > 0;
      } else {
        assert Value(front) > 0;
      }
      assert Value(s) / 10 == Value(front) && Value(s) % 10 == d;
      assert s == front + [s[|s| - 1]];
    }
  }

  predicate Canonical(s: string) {
    IsDigits(s) && s != "" && (s[0] == '0' ==> |s| == 1)
  }

  lemma PrintOfValue(s: string)
    requires Canonical(s)
    ensures Print(Value(s)) == s
  {
    if s[0] == '0' {
      assert s == "0" && Value(s) == 0;
    } else {
      DigitsOfValue(s);
    }
  }

  /** Two digit texts of the same length and value are the same. */
  lemma {:induction false} SameLengthSameValue(s: string, t: string)
    requires IsDigits(s) && IsDigits(t) && |s| == |t| && Value(s) == Value(t)
    ensures s == t
  {
    if s != "" {
      var n := |s| - 1;
      ValueSnoc(s[..n], s[n]);
      ValueSnoc(t[..n], t[n]);
      assert s == s[..n] + [s[n]] && t == t[..n] + [t[n]];
      hide Value;
      SameLengthSameValue(s[..n], t[..n]);
    }
  }
}
