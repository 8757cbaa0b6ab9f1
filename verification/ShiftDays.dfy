/** The shift a step is written as, read back (gui/ChronoMock.App.Tests/CalculatorSheetEngine.cs), and the two
    numbers one moment is shown as. */
module ShiftDays {
  import opened Civil
  import opened Wrappers

  const MAX_LONG := 9223372036854775807

  datatype Refusal = NeedsANumber | BadNumber

  datatype Parsed = Days(days: int) | Refused(why: Refusal)

  predicate IsDigit(c: char) { '0' <= c <= '9' }

  /** The digits the text begins with. */
  function Leading(s: string): (d: string)
    ensures d <= s
    decreases |s|
  {
    if s == "" || !IsDigit(s[0]) then "" else [s[0]] + Leading(s[1..])
  }

  function DigitValue(c: char): nat
    requires IsDigit(c)
  {
    c as nat - '0' as nat
  }

  function Value(digits: string): (n: nat)
    requires forall i :: 0 <= i < |digits| ==> IsDigit(digits[i])
    decreases |digits|
  {
    if digits == "" then 0 else 10 * Value(digits[..|digits| - 1]) + DigitValue(digits[|digits| - 1])
  }

  function Signed(sign: char, n: nat): int { if sign == '-' then -(n as int) else n }

  lemma {:induction false} LeadingAreDigits(s: string)
    ensures forall i :: 0 <= i < |Leading(s)| ==> IsDigit(Leading(s)[i])
    ensures |Leading(s)| < |s| ==> !IsDigit(s[|Leading(s)|])
    decreases |s|
  {
    if s != "" && IsDigit(s[0]) {
      LeadingAreDigits(s[1..]);
    }
  }

  function ReadAfter(sign: char, rest: string): Parsed {
    LeadingAreDigits(rest);
    var digits := Leading(rest);
    if digits == "" then Refused(NeedsANumber)
    else if Value(digits) > MAX_LONG then Refused(BadNumber)
    else Days(Signed(sign, Value(digits)))
  }

  /** The sign is whatever stands first, and only a minus turns the number. */
  function Read(shift: string): Parsed {
    if shift == "" then Refused(NeedsANumber) else ReadAfter(shift[0], shift[1..])
  }

  function Digit(n: nat): char
    requires n < 10
  {
    '0' + n as char
  }

  function Printed(n: nat): (s: string)
    ensures s != "" && forall i :: 0 <= i < |s| ==> IsDigit(s[i])
    decreases n
  {
    if n < 10 then [Digit(n)] else Printed(n / 10) + [Digit(n % 10)]
  }

  lemma {:induction false} PrintedValue(n: nat)
    ensures Value(Printed(n)) == n
    decreases n
  {
    if n < 10 {
      assert Printed(n)[..0] == "";
    } else {
      PrintedValue(n / 10);
      assert Printed(n)[..|Printed(n)| - 1] == Printed(n / 10);
    }
  }

  lemma {:induction false} LeadingStops(digits: string, rest: string)
    requires forall i :: 0 <= i < |digits| ==> IsDigit(digits[i])
    requires rest == "" || !IsDigit(rest[0])
    ensures Leading(digits + rest) == digits
    decreases |digits|
  {
    if digits == "" {
      assert digits + rest == rest;
    } else {
      assert (digits + rest)[1..] == digits[1..] + rest;
      LeadingStops(digits[1..], rest);
    }
  }

  lemma DigitsAreRead(sign: char, digits: string, unit: string)
    requires digits != "" && (forall i :: 0 <= i < |digits| ==> IsDigit(digits[i]))
    requires unit == "" || !IsDigit(unit[0])
    ensures Read([sign] + (digits + unit))
         == if Value(digits) > MAX_LONG then Refused(BadNumber) else Days(Signed(sign, Value(digits)))
  {
    hide Value, Leading;
    LeadingStops(digits, unit);
    AfterTheSign(sign, digits + unit);
  }

  lemma AfterTheSign(sign: char, rest: string)
    ensures Read([sign] + rest) == ReadAfter(sign, rest)
  {
    hide ReadAfter;
    assert ([sign] + rest)[1..] == rest;
  }

  /** A shift written out - a sign, a number, a unit - is read back as it was meant, for every number there is
      room for, and refused for every one there is not. */
  lemma WrittenIsRead(sign: char, n: nat, unit: string)
    requires unit == "" || !IsDigit(unit[0])
    ensures Read([sign] + (Printed(n) + unit))
         == if n > 0x7fff_ffff_ffff_ffff then Refused(BadNumber) else Days(if sign == '-' then 0 - n else n)
  {
    hide Value, Read;
    DigitsAreRead(sign, Printed(n), unit);
    PrintedValue(n);
  }

  /** It is refused for want of a number exactly if none follows what stands first. */
  lemma RefusedForWantOfANumberIff(shift: string)
    ensures Read(shift) == Refused(NeedsANumber) <==> |shift| < 2 || !IsDigit(shift[1])
  {
  }

  function Zeros(k: nat): (s: string)
    ensures |s| == k && forall i :: 0 <= i < k ==> s[i] == '0'
  {
    seq(k, i => '0')
  }

  lemma {:induction false} ZerosCountForNothing(k: nat, digits: string)
    requires forall i :: 0 <= i < |digits| ==> IsDigit(digits[i])
    ensures Value(Zeros(k) + digits) == Value(digits)
    decreases k, |digits|
  {
    var all := Zeros(k) + digits;
    if digits == "" {
      if k > 0 {
        assert all[..k - 1] == Zeros(k - 1) + digits;
        ZerosCountForNothing(k - 1, digits);
      }
    } else {
      assert all[..|all| - 1] == Zeros(k) + digits[..|digits| - 1];
      ZerosCountForNothing(k, digits[..|digits| - 1]);
    }
  }

  /** Zeros before the number, and whatever follows it, change nothing. */
  lemma WrittenWithZerosIsRead(sign: char, zeros: nat, n: nat, unit: string)
    requires unit == "" || !IsDigit(unit[0])
    ensures Read([sign] + (Zeros(zeros) + Printed(n) + unit)) == Read([sign] + (Printed(n) + unit))
  {
    hide Value, Read;
    DigitsAreRead(sign, Zeros(zeros) + Printed(n), unit);
    DigitsAreRead(sign, Printed(n), unit);
    ZerosCountForNothing(zeros, Printed(n));
  }

  // --- The formats of one moment ---

  const BASE := Date(2026, 1, 1)

  /** Whole days after the base, as seconds and milliseconds since 1970 and as 100 ns ticks since 1601. */
  function EpochOf(days: int): int { (DaysFromCivil(BASE) + days) * 86400 }

  function MillisecondsOf(days: int): int { EpochOf(days) * 1000 }

  function FiletimeOf(days: int): int {
    (DaysFromCivil(BASE) + days - DaysFromCivil(Date(1601, 1, 1))) * 864000000000
  }

  /** The numbers name one moment - a FILETIME counts the same time from 1601, in ten thousands of a millisecond - and
      the date beside them is the day it falls on. */
  lemma FormatsOfOneMoment(days: int)
    ensures FiletimeOf(days) - 116444736000000000 == 10_000 * MillisecondsOf(days)
    ensures FiletimeOf(days) == (EpochOf(days) + 11644473600) * 10000000
    ensures var d := CivilFromDays(EpochOf(days) / 86400);
      IsDate(d) && DaysFromCivil(d) == DaysFromCivil(BASE) + days
  {
    assert DaysFromCivil(Date(1601, 1, 1)) == -134774;
    hide DaysFromCivil, CivilFromDays, IsDate;
    DivUnique(EpochOf(days), 86400, DaysFromCivil(BASE) + days, 0);
    DaysOfCivil(DaysFromCivil(BASE) + days);
  }
}
