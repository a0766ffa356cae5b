/** Array indices written as path segments. */
module DecimalIndex {
  import opened Options

  /** The largest index a 64-bit target can represent. */
  const USIZE_MAX: nat := 0xFFFF_FFFF_FFFF_FFFF

  predicate IsDigit(c: char) {
    '0' <= c <= '9'
  }

  predicate AllDigits(s: string) {
    forall i :: 0 <= i < |s| ==> IsDigit(s[i])
  }

  predicate IsNumericIndex(s: string) {
    s != "" && AllDigits(s)
  }

  function DecimalValue(digits: string): nat
    requires AllDigits(digits)
  {
    if digits == "" then 0
    else 10 * DecimalValue(digits[..|digits| - 1]) + (digits[|digits| - 1] as int - '0' as int)
  }

  /** Parsing an index accepts one leading plus sign, then at least one digit,
      and fails on overflow. */
  function ParseIndex(s: string): Option<nat> {
    var digits := if s != "" && s[0] == '+' then s[1..] else s;
    if IsNumericIndex(digits) && DecimalValue(digits) <= USIZE_MAX
    then Some(DecimalValue(digits))
    else None
  }

  // ------------------------------------------------------------------
  // Printing and reading back
  // ------------------------------------------------------------------

  function Digit(d: nat): char
    requires d < 10
  {
    "0123456789"[d]
  }

  /** The decimal notation of a number, without leading zeros. */
  function Decimal(n: nat): string {
    if n < 10 then [Digit(n)] else Decimal(n / 10) + [Digit(n % 10)]
  }

  function Zeros(k: nat): string {
    seq(k, _ => '0')
  }

  lemma DigitValue(d: nat)
    requires d < 10
    ensures IsDigit(Digit(d)) && Digit(d) as int - '0' as int == d
  {
  }

  lemma DecimalValueSnoc(s: string, c: char)
    requires AllDigits(s) && IsDigit(c)
    ensures AllDigits(s + [c]) && DecimalValue(s + [c]) == 10 * DecimalValue(s) + (c as int - '0' as int)
  {
    assert (s + [c])[..|s|] == s;
  }

  lemma {:induction false} DecimalIsNumeric(n: nat)
    ensures IsNumericIndex(Decimal(n)) && DecimalValue(Decimal(n)) == n
  {
    if n < 10 {
      DigitValue(n);
      DecimalValueSnoc("", Digit(n));
      assert "" + [Digit(n)] == Decimal(n);
    } else {
      DecimalIsNumeric(n / 10);
      DigitValue(n % 10);
      DecimalValueSnoc(Decimal(n / 10), Digit(n % 10));
    }
  }

  lemma {:induction false} ZerosKeepValue(k: nat, s: string)
    requires AllDigits(s)
    ensures AllDigits(Zeros(k) + s) && DecimalValue(Zeros(k) + s) == DecimalValue(s)
    decreases |s|, k
  {
    if s != "" {
      var front, c := s[..|s| - 1], s[|s| - 1];
      ZerosKeepValue(k, front);
      DecimalValueSnoc(Zeros(k) + front, c);
      assert Zeros(k) + s == Zeros(k) + front + [c];
    } else if k > 0 {
      ZerosKeepValue(k - 1, "");
      DecimalValueSnoc(Zeros(k - 1), '0');
      assert Zeros(k) + "" == Zeros(k - 1) + ['0'] && Zeros(k - 1) + "" == Zeros(k - 1);
    }
  }

  lemma DigitOf(c: char)
    requires IsDigit(c)
    ensures 0 <= c as int - '0' as int < 10 && Digit(c as int - '0' as int) == c
  {
  }

  lemma DecimalSnoc(high: nat, d: nat)
    requires high > 0 && d < 10
    ensures Decimal(10 * high + d) == Decimal(high) + [Digit(d)]
  {
    assert (10 * high + d) / 10 == high && (10 * high + d) % 10 == d;
  }

  lemma ZerosSnoc(k: nat)
    ensures Zeros(k) + "0" == Zeros(k + 1)
  {
  }

  /** Any digits are zeros and then the decimal notation of their value. */
  lemma {:induction false} NumericIsDecimal(s: string) returns (k: nat)
    requires IsNumericIndex(s)
    ensures s == Zeros(k) + Decimal(DecimalValue(s))
    decreases |s|
  {
    var front, c := s[..|s| - 1], s[|s| - 1];
    assert s == front + [c];
    DigitOf(c);
    DecimalValueSnoc(front, c);
    if front == "" {
      k := 0;
      assert s == Zeros(0) + [c];
    } else {
      k := NumericIsDecimal(front);
      k := AppendDigit(front, c, k);
    }
  }

  lemma AppendDigit(front: string, c: char, k: nat) returns (k': nat)
    requires AllDigits(front) && IsDigit(c) && front == Zeros(k) + Decimal(DecimalValue(front))
    ensures front + [c] == Zeros(k') + Decimal(10 * DecimalValue(front) + (c as int - '0' as int))
  {
    var high, d := DecimalValue(front), c as int - '0' as int;
    DigitOf(c);
    if high == 0 {
      k' := k + 1;
      AppendToZero(k, d);
    } else {
      k' := k;
      AppendToPositive(k, high, d);
    }
  }

  lemma AppendToZero(k: nat, d: nat)
    requires d < 10
    ensures Zeros(k) + Decimal(0) + [Digit(d)] == Zeros(k + 1) + Decimal(d)
  {
    SingleDigit(0);
    SingleDigit(d);
    ZerosSnoc(k);
  }

  lemma AppendToPositive(k: nat, high: nat, d: nat)
    requires high > 0 && d < 10
    ensures Zeros(k) + Decimal(high) + [Digit(d)] == Zeros(k) + Decimal(10 * high + d)
  {
    DecimalSnoc(high, d);
    Reassociate(Zeros(k), Decimal(high), [Digit(d)]);
  }

  lemma SingleDigit(d: nat)
    requires d < 10
    ensures Decimal(d) == [Digit(d)] && [Digit(0)] == "0"
  {
  }

  lemma Reassociate(a: string, b: string, c: string)
    ensures a + b + c == a + (b + c)
  {
  }

  lemma UnsignedIndex(s: string)
    requires s == "" || s[0] != '+'
    ensures ParseIndex(s) == if IsNumericIndex(s) && DecimalValue(s) <= USIZE_MAX then Some(DecimalValue(s)) else None
    ensures ParseIndex("+" + s) == ParseIndex(s)
  {
    assert ("+" + s)[1..] == s;
  }

  /** The decimal notation of a number reads as that number if it fits 64 bits. */
  lemma ParseDecimal(n: nat)
    ensures ParseIndex(Decimal(n)) == if n < 0x1_0000_0000_0000_0000 then Some(n) else None
  {
    DecimalIsNumeric(n);
    UnsignedIndex(Decimal(n));
  }

  /** A segment reads as a number exactly when it is its decimal notation, perhaps after
      zeros, perhaps after one plus sign, and the number fits. */
  lemma ParseIndexIff(s: string, n: nat)
    ensures ParseIndex(s) == Some(n) <==>
            n < 0x1_0000_0000_0000_0000 &&
            exists k: nat :: s == Zeros(k) + Decimal(n) || s == "+" + (Zeros(k) + Decimal(n))
  {
    if ParseIndex(s) == Some(n) {
      ParsedIsDecimal(s, n);
    }
    if k: nat :| s == Zeros(k) + Decimal(n) || s == "+" + (Zeros(k) + Decimal(n)) {
      ParseZerosDecimal(k, n);
    }
  }

  lemma ParsedIsDecimal(s: string, n: nat)
    requires ParseIndex(s) == Some(n)
    ensures n < 0x1_0000_0000_0000_0000
    ensures exists k: nat :: s == Zeros(k) + Decimal(n) || s == "+" + (Zeros(k) + Decimal(n))
  {
    var digits := if s[0] == '+' then s[1..] else s;
    var k := NumericIsDecimal(digits);
    assert s == digits || s == "+" + digits;
  }

  lemma ParseZerosDecimal(k: nat, n: nat)
    ensures var s := Zeros(k) + Decimal(n);
            ParseIndex("+" + s) == ParseIndex(s) == if n < 0x1_0000_0000_0000_0000 then Some(n) else None
  {
    var s := Zeros(k) + Decimal(n);
    DecimalIsNumeric(n);
    ZerosKeepValue(k, Decimal(n));
    assert s[0] in s;
    UnsignedIndex(s);
  }
}
