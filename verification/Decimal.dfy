/**
 Decimal text of integers: the printer every command uses and the value the
 integer builder gives to a header line.
 */
module Decimal {
  import opened Wrappers

  // The largest magnitude the 64-bit accumulator of the integer builder holds.
  const INT64_MAX: int := 0x7FFF_FFFF_FFFF_FFFF

  predicate IsDigit(c: char) {
    '0' <= c <= '9'
  }

  function DigitValue(c: char): nat
    requires IsDigit(c)
  {
    c as int - '0' as int
  }

  function DigitChar(d: nat): char
    requires d < 10
  {
    ('0' as int + d) as char
  }

  predicate AllDigits(s: string) {
    forall i :: 0 <= i < |s| ==> IsDigit(s[i])
  }

  function Print(n: nat): string {
    if n < 10 then [DigitChar(n)] else Print(n / 10) + [DigitChar(n % 10)]
  }

  function PrintInt(v: int): string {
    if v < 0 then "-" + Print(-v) else Print(v)
  }

  // Positional value; the empty text is worth zero.
  function Value(s: string): nat
    requires AllDigits(s)
  {
    if s == [] then 0 else 10 * Value(s[..|s| - 1]) + DigitValue(s[|s| - 1])
  }

  function Negative(s: string): bool {
    s != [] && s[0] == '-'
  }

  function Magnitude(s: string): string {
    if Negative(s) then s[1..] else s
  }

  // The number an integer line stands for, when it is one that fits.
  function ParseInt(s: string): (v: Option<int>)
    ensures v.Some? ==> -INT64_MAX <= v.value <= INT64_MAX
  {
    var m := Magnitude(s);
    if !AllDigits(m) || Value(m) > INT64_MAX then None
    else Some(if Negative(s) then -(Value(m) as int) else Value(m))
  }

  lemma {:induction false} PrintIsDigits(n: nat)
    ensures Print(n) != [] && AllDigits(Print(n)) && Value(Print(n)) == n
  {
    if n < 10 {
      assert Print(n)[..0] == [];
    } else {
      PrintIsDigits(n / 10);
      assert Print(n)[..|Print(n)| - 1] == Print(n / 10);
    }
  }

  /** Reading a number back gives that number, and fails only where the magnitude is too wide. */
  lemma ParsePrinted(v: int)
    ensures ParseInt(PrintInt(v)) == if -INT64_MAX <= v <= INT64_MAX then Some(v) else None
  {
    var m := if v < 0 then -v else v;
    PrintIsDigits(m);
    assert IsDigit(Print(m)[0]);
    assert Negative(PrintInt(v)) == (v < 0) && Magnitude(PrintInt(v)) == Print(m);
  }

  /** The value of a prefix never exceeds the value of the whole text. */
  lemma {:induction false} PrefixValue(s: string, i: nat)
    requires AllDigits(s) && i <= |s|
    ensures Value(s[..i]) <= Value(s)
    decreases |s|
  {
    if i == |s| {
      assert s[..i] == s;
    } else {
      PrefixValue(s[..|s| - 1], i);
      assert s[..|s| - 1][..i] == s[..i];
    }
  }

  /**
   One more digit: the text read so far stays a number exactly when the next
   character is a digit, and its value never exceeds that of the whole text.
   */
  lemma ScanStep(s: string, i: nat)
    requires i < |s| && AllDigits(s[..i])
    ensures AllDigits(s) ==> IsDigit(s[i])
    ensures AllDigits(s[..i + 1]) <==> IsDigit(s[i])
    ensures IsDigit(s[i]) ==> Value(s[..i + 1]) == 10 * Value(s[..i]) + DigitValue(s[i])
    ensures AllDigits(s) ==> 10 * Value(s[..i]) + DigitValue(s[i]) <= Value(s)
  {
    assert s[..i + 1] == s[..i] + [s[i]];
    assert s[..i + 1][..i] == s[..i];
    if AllDigits(s) {
      PrefixValue(s, i + 1);
    }
  }
}
