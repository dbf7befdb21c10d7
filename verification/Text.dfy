/** Decimal printing of integers, as the `%d` verb and `strconv.Itoa` do it. */
module Text {
  import opened Words

  const DIGITS: string := "0123456789"

  function Digits(n: nat): (s: string)
    ensures s != []
    ensures forall c | c in s :: c in DIGITS
  {
    if n < 10 then [DIGITS[n]] else Digits(n / 10) + [DIGITS[n % 10]]
  }

  function Decimal(n: int): (s: string)
    ensures s != []
    ensures forall c | c in s :: c in DIGITS || c == '-'
  {
    if n < 0 then "-" + Digits(-n) else Digits(n)
  }

  function DigitValue(c: char): int { c as int - '0' as int }

  /** Reads a string of digits back. */
  function Value(s: string): int {
    if s == [] then 0 else 10 * Value(s[..|s| - 1]) + DigitValue(s[|s| - 1])
  }

  lemma {:induction false} ValueOfDigits(n: nat)
    ensures Value(Digits(n)) == n
    decreases n
  {
    assert forall d | 0 <= d < 10 :: DigitValue(DIGITS[d]) == d;
    if n < 10 {
      assert Digits(n)[..0] == [];
    } else {
      ValueOfDigits(n / 10);
      assert Digits(n)[..|Digits(n)| - 1] == Digits(n / 10);
    }
  }

  lemma DigitsInjective(m: nat, n: nat)
    ensures Digits(m) == Digits(n) <==> m == n
  {
    hide Digits, Value;
    ValueOfDigits(m);
    ValueOfDigits(n);
  }

  lemma DigitsNoSign(n: nat)
    ensures Digits(n)[0] != '-'
  {
    hide Digits;
    assert Digits(n)[0] in Digits(n);
  }

  /** Different integers print differently. */
  lemma DecimalInjective(m: int, n: int)
    ensures Decimal(m) == Decimal(n) <==> m == n
  {
    hide Digits;
    if m >= 0 { DigitsNoSign(m); }
    if n >= 0 { DigitsNoSign(n); }
    if m >= 0 && n >= 0 {
      DigitsInjective(m, n);
    } else if m < 0 && n < 0 {
      DigitsInjective(-m, -n);
      assert Decimal(m)[1..] == Digits(-m) && Decimal(n)[1..] == Digits(-n);
    }
  }

  /** The bytes of a decimal number. */
  function DecimalBytes(n: int): (b: seq<U8>)
    ensures |b| == |Decimal(n)|
  {
    var s := Decimal(n);
    assert forall i | 0 <= i < |s| :: s[i] in s;
    assert forall c | c in DIGITS :: c as int < 0x100;
    Bytes(s)
  }

  function Bytes(s: string): (b: seq<U8>)
    requires forall i | 0 <= i < |s| :: s[i] as int < 0x100
    ensures |b| == |s|
    ensures forall i | 0 <= i < |s| :: b[i] == s[i] as int
  {
    if s == [] then []
    else
      var b0: U8 := s[0] as int;
      [b0] + Bytes(s[1..])
  }
}
