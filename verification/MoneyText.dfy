/**
 * How an amount of money is written out, and read back. An amount is a whole number of
 * ten-thousandths; it is written the way a script prints the number it stands for: a
 * minus sign when negative, the whole part, and as many decimals as it needs.
 */
module MoneyText {

  function Numeral(d: int): char
    requires 0 <= d < 10
  {
    "0123456789"[d]
  }

  function DigitOf(c: char): int { if '0' <= c <= '9' then c as int - '0' as int else 0 }

  function Whole(n: nat): string { if n < 10 then [Numeral(n)] else Whole(n / 10) + [Numeral(n % 10)] }

  function Trimmed(digits: string): string {
    if digits != "" && digits[|digits| - 1] == '0' then Trimmed(digits[..|digits| - 1]) else digits
  }

  function FourDigits(f: nat): string
    requires f < 10000
  {
    var tens := f / 10;
    var hundreds := tens / 10;
    [Numeral(hundreds / 10), Numeral(hundreds % 10), Numeral(tens % 10), Numeral(f % 10)]
  }

  function Unsigned(n: nat): string {
    Whole(n / 10000) + if n % 10000 == 0 then "" else "." + Trimmed(FourDigits(n % 10000))
  }

  function Show(amount: int): string { if amount < 0 then "-" + Unsigned(-amount) else Unsigned(amount) }

  // ----- Reading it back -----

  function ReadWhole(s: string): int {
    if s == "" then 0 else 10 * ReadWhole(s[..|s| - 1]) + DigitOf(s[|s| - 1])
  }

  /** The digit at a decimal place, zero where none is written. */
  function PlaceOf(s: string, k: nat): int { if k < |s| then DigitOf(s[k]) else 0 }

  function ReadDecimals(s: string): int {
    1000 * PlaceOf(s, 0) + 100 * PlaceOf(s, 1) + 10 * PlaceOf(s, 2) + PlaceOf(s, 3)
  }

  /** How many characters come before the decimal point, or before the end. */
  function PointAt(s: string): (i: nat)
    ensures i <= |s|
  {
    if s == "" || s[0] == '.' then 0 else 1 + PointAt(s[1..])
  }

  function ReadUnsigned(s: string): int {
    var i := PointAt(s);
    10000 * ReadWhole(s[..i]) + if i < |s| then ReadDecimals(s[i + 1..]) else 0
  }

  function ReadMoney(s: string): int {
    if s != "" && s[0] == '-' then -ReadUnsigned(s[1..]) else ReadUnsigned(s)
  }

  predicate AllDigits(s: string) { forall i :: 0 <= i < |s| ==> '0' <= s[i] <= '9' }

  lemma NumeralReads(d: int)
    requires 0 <= d < 10
    ensures '0' <= Numeral(d) <= '9' && DigitOf(Numeral(d)) == d
  {}

  lemma OneMoreDigit(s: string, d: int)
    requires 0 <= d < 10 && AllDigits(s)
    ensures AllDigits(s + [Numeral(d)]) && ReadWhole(s + [Numeral(d)]) == 10 * ReadWhole(s) + d
  {
    var t := s + [Numeral(d)];
    NumeralReads(d);
    assert t[..|t| - 1] == s;
  }

  lemma {:induction false} WholeReads(n: nat)
    ensures Whole(n) != "" && AllDigits(Whole(n)) && ReadWhole(Whole(n)) == n
  {
    if n >= 10 {
      WholeReads(n / 10);
      OneMoreDigit(Whole(n / 10), n % 10);
    } else {
      OneMoreDigit("", n);
      assert "" + [Numeral(n)] == Whole(n);
    }
  }

  lemma {:induction false} TrimKeepsPlace(s: string, k: nat)
    requires AllDigits(s)
    ensures AllDigits(Trimmed(s)) && PlaceOf(Trimmed(s), k) == PlaceOf(s, k)
  {
    if s == "" || s[|s| - 1] != '0' {
    } else {
      TrimKeepsPlace(s[..|s| - 1], k);
    }
  }

  lemma FourNumeralsRead(a: int, b: int, c: int, d: int)
    requires 0 <= a < 10 && 0 <= b < 10 && 0 <= c < 10 && 0 <= d < 10
    ensures AllDigits([Numeral(a), Numeral(b), Numeral(c), Numeral(d)])
    ensures ReadDecimals([Numeral(a), Numeral(b), Numeral(c), Numeral(d)]) == 1000 * a + 100 * b + 10 * c + d
  {
    NumeralReads(a);
    NumeralReads(b);
    NumeralReads(c);
    NumeralReads(d);
  }

  lemma FourDigitsRead(f: nat)
    requires f < 10000
    ensures AllDigits(FourDigits(f)) && ReadDecimals(FourDigits(f)) == f
  {
    var tens := f / 10;
    var hundreds := tens / 10;
    FourNumeralsRead(hundreds / 10, hundreds % 10, tens % 10, f % 10);
  }

  lemma DecimalsRead(f: nat)
    requires f < 10000
    ensures AllDigits(Trimmed(FourDigits(f))) && ReadDecimals(Trimmed(FourDigits(f))) == f
  {
    FourDigitsRead(f);
    TrimKeepsPlace(FourDigits(f), 0);
    TrimKeepsPlace(FourDigits(f), 1);
    TrimKeepsPlace(FourDigits(f), 2);
    TrimKeepsPlace(FourDigits(f), 3);
  }

  lemma {:induction false} PointAfterDigits(s: string, t: string)
    requires AllDigits(s) && (t == "" || t[0] == '.')
    ensures PointAt(s + t) == |s|
  {
    if s != "" {
      assert (s + t)[1..] == s[1..] + t && (s + t)[0] == s[0];
      PointAfterDigits(s[1..], t);
    } else {
      assert s + t == t;
    }
  }

  lemma UnsignedReads(n: nat)
    ensures ReadUnsigned(Unsigned(n)) == n && '0' <= Unsigned(n)[0] <= '9'
    ensures forall i :: 0 <= i < |Unsigned(n)| ==> '0' <= Unsigned(n)[i] <= '9' || Unsigned(n)[i] == '.'
  {
    var whole, f := Whole(n / 10000), n % 10000;
    var decimals := Trimmed(FourDigits(f));
    var tail := if f == 0 then "" else "." + decimals;
    WholeReads(n / 10000);
    DecimalsRead(f);
    PointAfterDigits(whole, tail);
    assert (whole + tail)[..|whole|] == whole;
    assert f > 0 ==> (whole + tail)[|whole| + 1..] == decimals;
  }

  /** What is written reads back as the same amount, and is made of digits, a point and a sign only. */
  lemma ShowReads(amount: int)
    ensures ReadMoney(Show(amount)) == amount
    ensures forall i :: 0 <= i < |Show(amount)| ==> '0' <= Show(amount)[i] <= '9' || Show(amount)[i] in "-."
  {
    UnsignedReads(if amount < 0 then -amount else amount);
    if amount < 0 { assert Show(amount)[1..] == Unsigned(-amount); }
  }

  lemma {:induction false} NoLeadingZero(n: nat)
    ensures Whole(n) != "" && (Whole(n)[0] == '0' ==> n == 0 && |Whole(n)| == 1)
  {
    if n < 10 {
      NumeralReads(n);
    } else {
      NoLeadingZero(n / 10);
    }
  }

  lemma {:induction false} NoTrailingZero(digits: string)
    ensures |Trimmed(digits)| <= |digits| && (Trimmed(digits) != "" ==> Trimmed(digits)[|Trimmed(digits)| - 1] != '0')
  {
    if digits == "" || digits[|digits| - 1] != '0' {
    } else {
      NoTrailingZero(digits[..|digits| - 1]);
    }
  }

  /** No zero in front of another whole digit; where there is a point, up to four decimals, the last of them no zero. */
  predicate IsShort(s: string) {
    var i := PointAt(s);
    && i > 0 && (s[0] == '0' ==> i == 1)
    && (i < |s| ==> i + 1 < |s| <= i + 5 && s[|s| - 1] != '0')
  }

  lemma UnsignedIsShort(n: nat)
    ensures IsShort(Unsigned(n))
  {
    var whole, f := Whole(n / 10000), n % 10000;
    var decimals := Trimmed(FourDigits(f));
    var tail := if f == 0 then "" else "." + decimals;
    WholeReads(n / 10000);
    NoLeadingZero(n / 10000);
    DecimalsRead(f);
    NoTrailingZero(FourDigits(f));
    PointAfterDigits(whole, tail);
    if decimals == "" { assert ReadDecimals(decimals) == 0; }
  }

  /** It is written no longer than it needs to be: a minus sign in front exactly below zero, and no idle zero. */
  lemma ShowIsShort(amount: int)
    ensures Show(amount) != "" && (Show(amount)[0] == '-' <==> amount < 0)
    ensures IsShort(if amount < 0 then Show(amount)[1..] else Show(amount))
  {
    var size := if amount < 0 then -amount else amount;
    UnsignedReads(size);
    UnsignedIsShort(size);
    if amount < 0 { assert Show(amount)[1..] == Unsigned(size); }
  }
}
