/** Moments as text (gui/ChronoMock.App/Session/MomentParse.cs): a date and an optional time composed into
    one canonical text, and that text split back into the two fields. */
module MomentParse {
  import opened Civil
  import opened Wrappers

  /** Which part of the input an error belongs to. */
  datatype Part = NoPart | DatePart | TimePart

  datatype Key = NoKey | DateEmpty | DateInvalid | DateYearRange | DateFormat | TimeFormat

  datatype MomentResult = MomentResult(ok: bool, canonical: string, part: Part, key: Key)

  /** A `DateTime` of whole seconds: years 1 to 9999. */
  datatype Moment = Moment(date: Date, hour: int, minute: int, second: int)

  predicate InWindow(d: Date) { IsDate(d) && 1 <= d.year <= 9999 }

  predicate IsTime(h: int, m: int, s: int) { 0 <= h < 24 && 0 <= m < 60 && 0 <= s < 60 }

  predicate IsMoment(m: Moment) { InWindow(m.date) && IsTime(m.hour, m.minute, m.second) }

  // --- Digits ---

  predicate IsDigit(c: char) { '0' <= c <= '9' }

  function Digit(n: int): char
    requires 0 <= n <= 9
  {
    ['0', '1', '2', '3', '4', '5', '6', '7', '8', '9'][n]
  }

  function ValueOf(c: char): int { if IsDigit(c) then c as int - '0' as int else 0 }

  lemma DigitsAreValues(n: int)
    requires 0 <= n <= 9
    ensures IsDigit(Digit(n)) && ValueOf(Digit(n)) == n
  {
  }

  lemma ValuesAreDigits(c: char)
    requires IsDigit(c)
    ensures 0 <= ValueOf(c) <= 9 && Digit(ValueOf(c)) == c
  {
  }

  function Two(n: int): (r: string)
    requires 0 <= n <= 99
    ensures |r| == 2
  {
    [Digit(n / 10), Digit(n % 10)]
  }

  function Four(n: int): (r: string)
    requires 0 <= n <= 9999
    ensures |r| == 4
  {
    Two(n / 100) + Two(n % 100)
  }

  function ReadTwo(s: string): Option<int>
    requires |s| == 2
  {
    if IsDigit(s[0]) && IsDigit(s[1]) then Some(10 * ValueOf(s[0]) + ValueOf(s[1])) else None
  }

  function ReadFour(s: string): Option<int>
    requires |s| == 4
  {
    match (ReadTwo(s[..2]), ReadTwo(s[2..]))
    case (Some(a), Some(b)) => Some(100 * a + b)
    case _ => None
  }

  lemma TwoReads(n: int)
    requires 0 <= n <= 99
    ensures ReadTwo(Two(n)) == Some(n)
  {
    DigitsAreValues(n / 10);
    DigitsAreValues(n % 10);
  }

  lemma ReadTwoIsTwo(s: string)
    requires |s| == 2 && ReadTwo(s).Some?
    ensures 0 <= ReadTwo(s).value <= 99 && Two(ReadTwo(s).value) == s
  {
    ValuesAreDigits(s[0]);
    ValuesAreDigits(s[1]);
    DivUnique(ReadTwo(s).value, 10, ValueOf(s[0]), ValueOf(s[1]));
  }

  lemma FourReads(n: int)
    requires 0 <= n <= 9999
    ensures ReadFour(Four(n)) == Some(n)
  {
    TwoReads(n / 100);
    TwoReads(n % 100);
    assert Four(n)[..2] == Two(n / 100) && Four(n)[2..] == Two(n % 100);
  }

  lemma ReadFourIsFour(s: string)
    requires |s| == 4 && ReadFour(s).Some?
    ensures 0 <= ReadFour(s).value <= 9999 && Four(ReadFour(s).value) == s
  {
    ReadTwoIsTwo(s[..2]);
    ReadTwoIsTwo(s[2..]);
    DivUnique(ReadFour(s).value, 100, ReadTwo(s[..2]).value, ReadTwo(s[2..]).value);
    assert s == s[..2] + s[2..];
  }

  // --- The three exact patterns ---

  function DateText(d: Date): (r: string)
    requires InWindow(d)
    ensures |r| == 10
  {
    Four(d.year) + "-" + Two(d.month) + "-" + Two(d.day)
  }

  function ShortTime(h: int, m: int): (r: string)
    requires IsTime(h, m, 0)
    ensures |r| == 5
  {
    Two(h) + ":" + Two(m)
  }

  function LongTime(h: int, m: int, s: int): (r: string)
    requires IsTime(h, m, s)
    ensures |r| == 8
  {
    ShortTime(h, m) + ":" + Two(s)
  }

  function MomentText(m: Moment): (r: string)
    requires IsMoment(m)
    ensures |r| == 19
  {
    DateText(m.date) + "T" + LongTime(m.hour, m.minute, m.second)
  }

  /** `TryParseExact` on yyyy-MM-dd. */
  function ReadDate(s: string): (r: Option<Date>)
    ensures r.Some? ==> InWindow(r.value)
  {
    if |s| != 10 || s[4] != '-' || s[7] != '-' then None
    else
      match (ReadFour(s[..4]), ReadTwo(s[5..7]), ReadTwo(s[8..]))
      case (Some(y), Some(m), Some(d)) => if InWindow(Date(y, m, d)) then Some(Date(y, m, d)) else None
      case _ => None
  }

  /** `TryParseExact` on HH:mm and HH:mm:ss, as hours, minutes and seconds. */
  function ReadTime(s: string): (r: Option<(int, int, int)>)
    ensures r.Some? ==> IsTime(r.value.0, r.value.1, r.value.2)
  {
    if |s| == 5 then ReadHourMinute(s, 0)
    else if |s| == 8 && s[5] == ':' && ReadTwo(s[6..]).Some? then ReadHourMinute(s[..5], ReadTwo(s[6..]).value)
    else None
  }

  function ReadHourMinute(s: string, second: int): (r: Option<(int, int, int)>)
    requires |s| == 5
    ensures r.Some? ==> IsTime(r.value.0, r.value.1, r.value.2)
  {
    if s[2] != ':' then None
    else
      match (ReadTwo(s[..2]), ReadTwo(s[3..]))
      case (Some(h), Some(m)) => if IsTime(h, m, second) then Some((h, m, second)) else None
      case _ => None
  }

  /** `TryParseExact` on yyyy-MM-ddTHH:mm:ss. */
  function ReadMoment(s: string): (r: Option<Moment>)
    ensures r.Some? ==> IsMoment(r.value)
  {
    if |s| != 19 || s[10] != 'T' then None
    else
      match (ReadDate(s[..10]), ReadTime(s[11..]))
      case (Some(d), Some((h, m, sec))) => Some(Moment(d, h, m, sec))
      case _ => None
  }

  lemma DateReads(d: Date)
    requires InWindow(d)
    ensures ReadDate(DateText(d)) == Some(d)
  {
    var s := DateText(d);
    assert s[..4] == Four(d.year) && s[5..7] == Two(d.month) && s[8..] == Two(d.day);
    FourReads(d.year);
    TwoReads(d.month);
    TwoReads(d.day);
  }

  lemma ReadDateIsDate(s: string)
    requires ReadDate(s).Some?
    ensures s == DateText(ReadDate(s).value)
  {
    ReadFourIsFour(s[..4]);
    ReadTwoIsTwo(s[5..7]);
    ReadTwoIsTwo(s[8..]);
    assert s == s[..4] + [s[4]] + s[5..7] + [s[7]] + s[8..];
  }

  lemma ShortTimeReads(h: int, m: int, second: int)
    requires IsTime(h, m, second)
    ensures ReadHourMinute(ShortTime(h, m), second) == Some((h, m, second))
  {
    var s := ShortTime(h, m);
    assert s[..2] == Two(h) && s[3..] == Two(m);
    TwoReads(h);
    TwoReads(m);
  }

  lemma TimesRead(h: int, m: int, sec: int)
    requires IsTime(h, m, sec)
    ensures ReadTime(LongTime(h, m, sec)) == Some((h, m, sec))
    ensures ReadTime(ShortTime(h, m)) == Some((h, m, 0))
  {
    var s := LongTime(h, m, sec);
    assert s[..5] == ShortTime(h, m) && s[6..] == Two(sec);
    TwoReads(sec);
    ShortTimeReads(h, m, sec);
    ShortTimeReads(h, m, 0);
  }

  lemma ReadTimeIsTime(s: string)
    requires ReadTime(s).Some?
    ensures var (h, m, sec) := ReadTime(s).value;
            s == if |s| == 5 then ShortTime(h, m) else LongTime(h, m, sec)
    ensures |s| == 5 ==> ReadTime(s).value.2 == 0
  {
    var hm := if |s| == 5 then s else s[..5];
    ReadTwoIsTwo(hm[..2]);
    ReadTwoIsTwo(hm[3..]);
    assert hm == hm[..2] + [hm[2]] + hm[3..];
    if |s| == 8 {
      ReadTwoIsTwo(s[6..]);
      assert s == s[..5] + [s[5]] + s[6..];
    }
  }

  /** The canonical text is read exactly by its own pattern: printing and reading are inverse, both ways. */
  lemma MomentTextIsItsReading(m: Moment, s: string)
    requires IsMoment(m)
    ensures ReadMoment(s) == Some(m) <==> s == MomentText(m)
  {
    var t := MomentText(m);
    assert t[..10] == DateText(m.date) && t[11..] == LongTime(m.hour, m.minute, m.second);
    DateReads(m.date);
    TimesRead(m.hour, m.minute, m.second);
    if ReadMoment(s) == Some(m) {
      ReadDateIsDate(s[..10]);
      ReadTimeIsTime(s[11..]);
      assert s == s[..10] + [s[10]] + s[11..];
    }
  }

  // --- Compose and Split ---

  /** `Char.IsWhiteSpace`. */
  predicate IsWhite(c: char) {
    var n := c as int;
    n in {0x20, 0x85, 0xA0, 0x1680, 0x2028, 0x2029, 0x202F, 0x205F, 0x3000} || 0x09 <= n <= 0x0D
    || 0x2000 <= n <= 0x200A
  }

  function TrimStart(s: string): string {
    if s != "" && IsWhite(s[0]) then TrimStart(s[1..]) else s
  }

  function TrimEnd(s: string): string {
    if s != "" && IsWhite(s[|s| - 1]) then TrimEnd(s[..|s| - 1]) else s
  }

  function Trim(s: string): string { TrimEnd(TrimStart(s)) }

  predicate AllWhite(s: string) { forall k :: 0 <= k < |s| ==> IsWhite(s[k]) }

  lemma {:induction false} StartTrimmed(s: string) returns (front: string)
    ensures s == front + TrimStart(s) && AllWhite(front)
    ensures TrimStart(s) == "" || !IsWhite(TrimStart(s)[0])
    decreases |s|
  {
    front := "";
    if s != "" && IsWhite(s[0]) {
      var rest := StartTrimmed(s[1..]);
      front := [s[0]] + rest;
      assert s == [s[0]] + s[1..];
    }
  }

  lemma {:induction false} EndTrimmed(s: string) returns (back: string)
    ensures s == TrimEnd(s) + back && AllWhite(back)
    ensures TrimEnd(s) == "" || !IsWhite(TrimEnd(s)[|TrimEnd(s)| - 1])
    decreases |s|
  {
    back := "";
    if s != "" && IsWhite(s[|s| - 1]) {
      var rest := EndTrimmed(s[..|s| - 1]);
      back := rest + [s[|s| - 1]];
      assert s == s[..|s| - 1] + [s[|s| - 1]];
    }
  }

  /** Trimming takes the blanks at both ends, all of them, and nothing else. */
  lemma TrimTakesTheBlanks(s: string) returns (front: string, back: string)
    ensures s == front + Trim(s) + back && AllWhite(front) && AllWhite(back)
    ensures Trim(s) != "" ==> !IsWhite(Trim(s)[0]) && !IsWhite(Trim(s)[|Trim(s)| - 1])
  {
    front := StartTrimmed(s);
    back := EndTrimmed(TrimStart(s));
    assert Trim(s) != "" ==> Trim(s)[0] == TrimStart(s)[0];
  }

  /** Which characters the pattern's \d takes: the Unicode decimal digits, of every script. */
  ghost predicate IsDigitClass(nd: char -> bool) {
    && (forall c :: IsDigit(c) ==> nd(c))
    && !nd('-')
  }

  predicate AllIn(nd: char -> bool, s: string) { forall c :: c in s ==> nd(c) }

  /** A tail of the form -dd-dd after `n` characters. */
  predicate MonthDayShape(nd: char -> bool, s: string, n: nat) {
    |s| == n + 6 && s[n] == '-' && AllIn(nd, s[n + 1..n + 3]) && s[n + 3] == '-' && AllIn(nd, s[n + 4..])
  }

  predicate IsoDateShape(nd: char -> bool, s: string) { MonthDayShape(nd, s, 4) && AllIn(nd, s[..4]) }

  predicate WideYearIsoShape(nd: char -> bool, s: string) {
    || (7 < |s| <= 13 && s[0] == '-' && MonthDayShape(nd, s, |s| - 6) && AllIn(nd, s[1..|s| - 6]))
    || (11 <= |s| <= 12 && MonthDayShape(nd, s, |s| - 6) && AllIn(nd, s[..|s| - 6]))
  }

  /** A sign, a year of so many digits, and a month and a day of two. */
  ghost predicate Dated(nd: char -> bool, s: string, sign: string, least: nat, most: nat) {
    exists y, m, d :: IsDated(nd, s, sign, y, m, d) && least <= |y| <= most
  }

  predicate IsDated(nd: char -> bool, s: string, sign: string, y: string, m: string, d: string) {
    s == sign + y + "-" + m + "-" + d && |m| == 2 && |d| == 2 && AllIn(nd, y) && AllIn(nd, m) && AllIn(nd, d)
  }

  lemma DatedIsShape(nd: char -> bool, s: string, sign: string, y: string, m: string, d: string)
    requires IsDated(nd, s, sign, y, m, d)
    ensures |s| == |sign| + |y| + 6 && s[..|sign|] == sign && s[|sign|..|s| - 6] == y && MonthDayShape(nd, s, |s| - 6)
  {
    var n := |sign| + |y|;
    assert s[n + 1..n + 3] == m && s[n + 4..] == d;
  }

  lemma ShapeIsDated(nd: char -> bool, s: string, k: nat)
    requires k + 6 <= |s| && MonthDayShape(nd, s, |s| - 6) && AllIn(nd, s[k..|s| - 6])
    ensures IsDated(nd, s, s[..k], s[k..|s| - 6], s[|s| - 5..|s| - 3], s[|s| - 2..])
  {
    var n := |s| - 6;
    assert s == s[..k] + s[k..n] + [s[n]] + s[n + 1..n + 3] + [s[n + 3]] + s[n + 4..];
  }

  /** The first pattern: a year of four digits. */
  lemma IsoDateShapeIff(nd: char -> bool, s: string)
    ensures IsoDateShape(nd, s) <==> Dated(nd, s, "", 4, 4)
  {
    if IsoDateShape(nd, s) {
      assert s[0..|s| - 6] == s[..4] && s[..0] == "";
      ShapeIsDated(nd, s, 0);
    }
    if y, m, d :| IsDated(nd, s, "", y, m, d) && |y| == 4 {
      DatedIsShape(nd, s, "", y, m, d);
      assert s[..4] == y;
    }
  }

  /** The second: a minus and one to six digits, or five or six. */
  lemma WideYearIsoShapeIff(nd: char -> bool, s: string)
    ensures WideYearIsoShape(nd, s) <==> Dated(nd, s, "-", 1, 6) || Dated(nd, s, "", 5, 6)
  {
    hide WideYearIsoShape, Dated;
    if WideYearIsoShape(nd, s) {
      WideYearIsDated(nd, s);
    }
    if Dated(nd, s, "-", 1, 6) || Dated(nd, s, "", 5, 6) {
      DatedIsWideYear(nd, s);
    }
  }

  lemma WideYearIsDated(nd: char -> bool, s: string)
    requires WideYearIsoShape(nd, s)
    ensures Dated(nd, s, "-", 1, 6) || Dated(nd, s, "", 5, 6)
  {
    hide MonthDayShape, AllIn;
    if 7 < |s| <= 13 && s[0] == '-' && MonthDayShape(nd, s, |s| - 6) && AllIn(nd, s[1..|s| - 6]) {
      ShapeIsDated(nd, s, 1);
      assert s[..1] == "-";
    } else {
      assert s[0..|s| - 6] == s[..|s| - 6] && s[..0] == "";
      ShapeIsDated(nd, s, 0);
    }
  }

  lemma DatedIsWideYear(nd: char -> bool, s: string)
    requires Dated(nd, s, "-", 1, 6) || Dated(nd, s, "", 5, 6)
    ensures WideYearIsoShape(nd, s)
  {
    hide MonthDayShape, AllIn;
    if y, m, d :| IsDated(nd, s, "-", y, m, d) && 1 <= |y| <= 6 {
      DatedIsShape(nd, s, "-", y, m, d);
      assert s[0] == s[..1][0];
    }
    if y, m, d :| IsDated(nd, s, "", y, m, d) && 5 <= |y| <= 6 {
      DatedIsShape(nd, s, "", y, m, d);
      assert s[..|s| - 6] == s[0..|s| - 6];
    }
  }

  function Failed(part: Part, key: Key): MomentResult { MomentResult(false, "", part, key) }

  function Compose(nd: char -> bool, dateText: string, timeText: string): MomentResult {
    var d := Trim(dateText);
    if d == "" then Failed(DatePart, DateEmpty)
    else if ReadDate(d).None? then
      Failed(DatePart,
             if IsoDateShape(nd, d) then DateInvalid
             else if WideYearIsoShape(nd, d) then DateYearRange
             else DateFormat)
    else
      var t := Trim(timeText);
      if t == "" then MomentResult(true, MomentText(Moment(ReadDate(d).value, 0, 0, 0)), NoPart, NoKey)
      else
        match ReadTime(t)
        case None => Failed(TimePart, TimeFormat)
        case Some((h, m, s)) => MomentResult(true, MomentText(Moment(ReadDate(d).value, h, m, s)), NoPart, NoKey)
  }

  /** The time as the field shows it: no seconds where they are zero. */
  function TidyTime(m: Moment): string
    requires IsMoment(m)
  {
    if m.second == 0 then ShortTime(m.hour, m.minute) else LongTime(m.hour, m.minute, m.second)
  }

  function Split(canonical: string): (string, string) {
    var c := Trim(canonical);
    match ReadMoment(c)
    case None => (c, "")
    case Some(m) => (DateText(m.date), TidyTime(m))
  }

  lemma {:induction false} TrimKeeps(s: string)
    requires s != "" && !IsWhite(s[0]) && !IsWhite(s[|s| - 1])
    ensures Trim(s) == s
  {
  }

  lemma MomentEdges(s: string)
    requires ReadDate(s).Some? || ReadTime(s).Some? || ReadMoment(s).Some?
    ensures Trim(s) == s
  {
  }

  /** Splitting a canonical moment and composing the two fields gives the moment back, in every year. */
  lemma ComposeUndoesSplit(nd: char -> bool, m: Moment)
    requires IsMoment(m)
    ensures var (d, t) := Split(MomentText(m));
            Compose(nd, d, t) == MomentResult(true, MomentText(m), NoPart, NoKey)
  {
    MomentTextIsItsReading(m, MomentText(m));
    MomentEdges(MomentText(m));
    DateReads(m.date);
    MomentEdges(DateText(m.date));
    TimesRead(m.hour, m.minute, m.second);
    MomentEdges(TidyTime(m));
  }

  lemma TidyOfReading(t: string, date: Date)
    requires InWindow(date) && ReadTime(t).Some?
    ensures var (h, mi, s) := ReadTime(t).value;
            TidyTime(Moment(date, h, mi, s)) == if |t| == 8 && t[5..] == ":00" then t[..5] else t
  {
    var (h, mi, s) := ReadTime(t).value;
    ReadTimeIsTime(t);
    if |t| == 8 {
      assert t[..5] == ShortTime(h, mi) && t[5..] == ":" + Two(s);
      TwoReads(s);
      TwoReads(0);
      assert Two(0) == "00" && (":" + Two(s))[1..] == Two(s) && ":00"[1..] == "00";
    }
  }

  /** The moment a date and a time field name, where both read. */
  function Typed(d: string, t: string): (m: Moment)
    requires ReadDate(d).Some? && (t == "" || ReadTime(t).Some?)
    ensures IsMoment(m)
  {
    var (h, mi, s) := if t == "" then (0, 0, 0) else ReadTime(t).value;
    Moment(ReadDate(d).value, h, mi, s)
  }

  function Tidied(t: string): string {
    if t == "" then "00:00" else if |t| == 8 && t[5..] == ":00" then t[..5] else t
  }

  lemma TypedIsTidy(d: string, t: string)
    requires ReadDate(d).Some? && (t == "" || ReadTime(t).Some?)
    ensures DateText(Typed(d, t).date) == d && TidyTime(Typed(d, t)) == Tidied(t)
  {
    ReadDateIsDate(d);
    if t == "" {
      assert ShortTime(0, 0) == "00:00";
    } else {
      TidyOfReading(t, ReadDate(d).value);
    }
  }

  /** Splitting what was composed gives the typed fields in their tidy form: the blanks around them gone,
      zero seconds dropped and no time at all read as midnight. */
  lemma SplitOfComposeIsTidy(nd: char -> bool, date: string, time: string)
    requires Compose(nd, date, time).ok
    ensures Split(Compose(nd, date, time).canonical) == (Trim(date), Tidied(Trim(time)))
  {
    var m := Typed(Trim(date), Trim(time));
    assert Compose(nd, date, time).canonical == MomentText(m);
    SplitReads(m);
    TypedIsTidy(Trim(date), Trim(time));
  }

  /** What is no moment comes back whole, in the date field. */
  lemma WhatIsNoMomentIsKept(s: string)
    requires ReadMoment(Trim(s)).None?
    ensures Split(s) == (Trim(s), "")
  {
  }

  lemma SplitReads(m: Moment)
    requires IsMoment(m)
    ensures Split(MomentText(m)) == (DateText(m.date), TidyTime(m))
  {
    MomentTextIsItsReading(m, MomentText(m));
    MomentEdges(MomentText(m));
  }

  // --- Which text gets which message ---

  lemma DatesHaveTheShape(nd: char -> bool, s: string)
    requires IsDigitClass(nd) && ReadDate(s).Some?
    ensures IsoDateShape(nd, s)
  {
    ReadDateIsDate(s);
  }

  lemma ShapesExclude(nd: char -> bool, s: string)
    requires IsDigitClass(nd)
    ensures !(IsoDateShape(nd, s) && WideYearIsoShape(nd, s))
  {
    if IsoDateShape(nd, s) {
      assert s[0] in s[..4];
    }
  }

  /** Every pair of texts gets exactly one answer, and each answer has its own condition: none depends on
      the order the patterns are tried in. */
  lemma EveryTextHasItsMessage(nd: char -> bool, date: string, time: string)
    requires IsDigitClass(nd)
    ensures var (r, d, t) := (Compose(nd, date, time), Trim(date), Trim(time));
      && (r.ok <==> ReadDate(d).Some? && (t == "" || ReadTime(t).Some?))
      && (r.key == DateEmpty <==> d == "")
      && (r.key == DateInvalid <==> Dated(nd, d, "", 4, 4) && ReadDate(d).None?)
      && (r.key == DateYearRange <==> Dated(nd, d, "-", 1, 6) || Dated(nd, d, "", 5, 6))
      && (r.key == DateFormat <==>
            d != "" && !Dated(nd, d, "", 4, 4) && !Dated(nd, d, "-", 1, 6) && !Dated(nd, d, "", 5, 6))
      && (r.key == TimeFormat <==> ReadDate(d).Some? && t != "" && ReadTime(t).None?)
      && (r.part == DatePart <==> ReadDate(d).None?) && (r.part == TimePart <==> r.key == TimeFormat)
  {
    var d := Trim(date);
    ShapesExclude(nd, d);
    IsoDateShapeIff(nd, d);
    WideYearIsoShapeIff(nd, d);
    if ReadDate(d).Some? {
      DatesHaveTheShape(nd, d);
    }
    hide Dated, IsoDateShape, WideYearIsoShape, ReadDate, ReadTime, Trim;
  }

  // --- The dates the engine prints (crates/core/src/calc.rs) ---

  function Pad4(n: nat): string
    requires n <= 999_999
  {
    if n <= 9999 then Four(n)
    else if n <= 99_999 then [Digit(n / 10_000)] + Four(n % 10_000)
    else Two(n / 10_000) + Four(n % 10_000)
  }

  /** What a decimal numeral stands for. */
  function DecimalOf(s: string): int {
    if s == "" then 0 else 10 * DecimalOf(s[..|s| - 1]) + ValueOf(s[|s| - 1])
  }

  lemma {:induction false} DecimalOfBoth(a: string, b: string)
    ensures DecimalOf(a + b) == DecimalOf(a) * Power10(|b|) + DecimalOf(b)
    decreases |b|
  {
    if b == "" {
      assert a + b == a;
    } else {
      assert (a + b)[..|a + b| - 1] == a + b[..|b| - 1];
      DecimalOfBoth(a, b[..|b| - 1]);
    }
  }

  function Power10(n: nat): nat { if n == 0 then 1 else 10 * Power10(n - 1) }

  lemma DecimalOfTwo(n: nat)
    requires n <= 99
    ensures DecimalOf(Two(n)) == n
  {
    DigitsAreValues(n / 10);
    DigitsAreValues(n % 10);
    assert Two(n)[..1] == [Digit(n / 10)] && Two(n)[..1][..0] == "";
  }

  lemma DecimalOfFour(n: nat)
    requires n <= 9999
    ensures DecimalOf(Four(n)) == n
  {
    assert Power10(2) == 100;
    hide DecimalOf, Two, Power10;
    DecimalOfTwo(n / 100);
    DecimalOfTwo(n % 100);
    DecimalOfBoth(Two(n / 100), Two(n % 100));
  }

  lemma DecimalOfDigit(n: nat)
    requires n <= 9
    ensures DecimalOf([Digit(n)]) == n && (n > 0 ==> Digit(n) != '0')
  {
    DigitsAreValues(n);
    assert [Digit(n)][..0] == "";
  }

  lemma HighThenLow(high: string, n: nat, value: nat)
    requires n <= 9999 && DecimalOf(high) == value
    ensures DecimalOf(high + Four(n)) == 10_000 * value + n
  {
    assert Power10(4) == 10_000;
    hide Power10, DecimalOf, Four;
    DecimalOfFour(n);
    DecimalOfBoth(high, Four(n));
  }

  /** A year's digits are its decimal numeral, of four places at least and no more than it needs beyond them. */
  lemma Pad4IsDecimal(n: nat)
    requires n <= 999_999
    ensures DecimalOf(Pad4(n)) == n && |Pad4(n)| >= 4 && (|Pad4(n)| > 4 ==> Pad4(n)[0] != '0')
  {
    var (high, low) := (n / 10_000, n % 10_000);
    hide DecimalOf, Four, Digit;
    if n <= 9999 {
      DecimalOfFour(n);
    } else if n <= 99_999 {
      DecimalOfDigit(high);
      HighThenLow([Digit(high)], low, high);
    } else {
      DecimalOfTwo(high);
      DecimalOfDigit(high / 10);
      HighThenLow(Two(high), low, high);
    }
  }

  /** `format_year`, of any year the engine computes on. */
  function YearText(year: int): string
    requires -262_143 <= year <= 262_143
  {
    if year < 0 then "-" + Pad4(-year) else Pad4(year)
  }

  function EngineDate(d: Date): string
    requires IsDate(d) && -262_143 <= d.year <= 262_143
  {
    YearText(d.year) + "-" + Two(d.month) + "-" + Two(d.day)
  }

  lemma TwoIn(nd: char -> bool, n: nat)
    requires IsDigitClass(nd) && n <= 99
    ensures AllIn(nd, Two(n))
  {
    DigitsAreValues(n / 10);
    DigitsAreValues(n % 10);
  }

  lemma FourIn(nd: char -> bool, n: nat)
    requires IsDigitClass(nd) && n <= 9999
    ensures AllIn(nd, Four(n))
  {
    TwoIn(nd, n / 100);
    TwoIn(nd, n % 100);
  }

  lemma Pad4In(nd: char -> bool, n: nat)
    requires IsDigitClass(nd) && n <= 999_999
    ensures AllIn(nd, Pad4(n))
    ensures |Pad4(n)| == if n <= 9999 then 4 else if n <= 99_999 then 5 else 6
  {
    if n <= 9999 {
      FourIn(nd, n);
    } else {
      FourIn(nd, n % 10_000);
      if n <= 99_999 { DigitsAreValues(n / 10_000); } else { TwoIn(nd, n / 10_000); }
    }
  }

  lemma TailShape(nd: char -> bool, y: string, month: nat, day: nat)
    requires IsDigitClass(nd) && month <= 99 && day <= 99
    ensures var s := y + "-" + Two(month) + "-" + Two(day);
            MonthDayShape(nd, s, |y|) && s[..|y|] == y
  {
    var s := y + "-" + Two(month) + "-" + Two(day);
    TwoIn(nd, month);
    TwoIn(nd, day);
    assert s[|y| + 1..|y| + 3] == Two(month) && s[|y| + 4..] == Two(day);
  }

  lemma YearTextEdge(year: int)
    requires -262_143 <= year <= 262_143
    ensures YearText(year) != "" && (YearText(year)[0] == '-' || IsDigit(YearText(year)[0]))
  {
    var n := if year < 0 then -year else year;
    Pad4In(c => IsDigit(c), n);
    assert Pad4(n)[0] in Pad4(n);
  }

  lemma EngineDateIsTrim(d: Date)
    requires IsDate(d) && -262_143 <= d.year <= 262_143
    ensures Trim(EngineDate(d)) == EngineDate(d)
  {
    YearTextEdge(d.year);
    DigitsAreValues(d.day % 10);
    TrimKeeps(EngineDate(d));
  }

  /** A date the engine computes is read when this window holds its year; otherwise it is told apart from a
      wrong shape exactly when its year is not 0, the one the engine writes in four digits like a year of
      the window, which is called an impossible date. */
  lemma EngineDatesAreToldApart(nd: char -> bool, d: Date)
    requires IsDigitClass(nd) && IsDate(d) && -262_143 <= d.year <= 262_143
    ensures var r := Compose(nd, EngineDate(d), "");
      && (r.ok <==> 1 <= d.year <= 9999)
      && (r.ok ==> r.canonical == MomentText(Moment(d, 0, 0, 0)))
      && (!r.ok ==> r.key == if d.year == 0 then DateInvalid else DateYearRange)
  {
    var (s, y) := (EngineDate(d), YearText(d.year));
    EngineDateIsTrim(d);
    TailShape(nd, y, d.month, d.day);
    Pad4In(nd, if d.year < 0 then -d.year else d.year);
    if 1 <= d.year <= 9999 {
      DateReads(d);
    } else {
      EngineDateOutside(nd, d);
      EveryTextHasItsMessage(nd, s, "");
    }
  }

  lemma EngineDateOutside(nd: char -> bool, d: Date)
    requires IsDigitClass(nd) && IsDate(d) && -262_143 <= d.year <= 262_143 && !(1 <= d.year <= 9999)
    ensures if d.year == 0 then IsoDateShape(nd, EngineDate(d)) && ReadDate(EngineDate(d)).None?
            else WideYearIsoShape(nd, EngineDate(d))
  {
    var (s, y) := (EngineDate(d), YearText(d.year));
    TailShape(nd, y, d.month, d.day);
    Pad4In(nd, if d.year < 0 then -d.year else d.year);
    if d.year == 0 {
      FourReads(0);
    } else if d.year < 0 {
      assert s[1..|s| - 6] == Pad4(-d.year) by { assert s[..|y|] == y; }
    }
  }
}
