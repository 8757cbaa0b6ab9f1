/** The editable moment (gui/ChronoMock.App/Session/MomentField.cs): two texts, what they compose to, and
    the same instant re-expressed in another fixed-offset zone (UTC = local + bias, in minutes). */
module MomentFields {
  import opened Civil
  import opened MomentParse
  import opened Wrappers

  const TICKS_PER_SECOND := 10_000_000
  const DAYS_0001_TO_1970 := 719_162
  const MAX_SECONDS := 3_652_059 * 86_400 - 1

  /** `DateTime.MaxValue.Ticks`; the least is 0. */
  const MAX_TICKS := 3_155_378_975_999_999_999

  // --- A moment as seconds since 0001-01-01, and back ---

  function SecondsOf(m: Moment): int {
    (DaysFromCivil(m.date) + DAYS_0001_TO_1970) * 86_400 + m.hour * 3_600 + m.minute * 60 + m.second
  }

  function MomentOf(seconds: int): Moment {
    var tod := seconds % 86_400;
    Moment(CivilFromDays(seconds / 86_400 - DAYS_0001_TO_1970), tod / 3_600, tod % 3_600 / 60, tod % 60)
  }

  lemma YearsRunOn(y: int, doy: int, y': int, doy': int)
    requires y < y' && 0 <= doy < YearLength(y % 400) && 0 <= doy'
    ensures DaysAt(y, doy) < DaysAt(y', doy')
    decreases y' - y
  {
    NewYearCounts(y);
    if y + 1 < y' {
      YearsRunOn(y + 1, 0, y', doy');
    }
  }

  predicate Before(y: int, doy: int, y': int, doy': int) { y < y' || (y == y' && doy < doy') }

  lemma PlacesInOrder(y: int, doy: int, y': int, doy': int)
    requires 0 <= doy < YearLength(y % 400) && 0 <= doy'
    requires Before(y, doy, y', doy')
    ensures DaysAt(y, doy) < DaysAt(y', doy')
  {
    if y < y' { YearsRunOn(y, doy, y', doy'); }
  }

  lemma WindowEdges()
    ensures DaysAt(0, 306) == -DAYS_0001_TO_1970 && DaysAt(9999, 306) == 3_652_059 - DAYS_0001_TO_1970
  {
    assert 9999 / 400 == 24 && 9999 % 400 == 399;
    assert YearStart(399) == 145_731 && YearStart(0) == 0;
  }

  lemma WindowOfPlaces(y: int, doy: int)
    requires 0 <= doy < YearLength(y % 400)
    ensures 0 <= DaysAt(y, doy) + DAYS_0001_TO_1970 < 3_652_059 <==> !Before(y, doy, 0, 306) && Before(y, doy, 9999, 306)
  {
    hide DaysAt;
    WindowEdges();
    if Before(y, doy, 0, 306) { PlacesInOrder(y, doy, 0, 306); }
    if Before(0, 306, y, doy) { PlacesInOrder(0, 306, y, doy); }
    if Before(y, doy, 9999, 306) { PlacesInOrder(y, doy, 9999, 306); }
    if Before(9999, 306, y, doy) { PlacesInOrder(9999, 306, y, doy); }
  }

  /** The day counts of the window's years, and no others. */
  lemma WindowOfDays(d: Date)
    requires IsDate(d)
    ensures InWindow(d) <==> 0 <= DaysFromCivil(d) + DAYS_0001_TO_1970 < 3_652_059
  {
    DaysInParts(d);
    WindowOfPlaces(MarchYear(d), DayOfYear(d));
    JanuaryIsLate(d);
  }

  lemma JanuaryIsLate(d: Date)
    requires IsDate(d)
    ensures DayOfYear(d) >= 306 <==> d.month <= 2
  {
    MonthStarts();
    assert (d.month + 9) % 12 == if d.month <= 2 then d.month + 9 else d.month - 3;
  }

  lemma ClockParts(days: int, h: int, m: int, s: int)
    requires IsTime(h, m, s)
    ensures var tod := h * 3_600 + m * 60 + s; var n := days * 86_400 + tod;
            && n / 86_400 == days && n % 86_400 == tod
            && tod / 3_600 == h && tod % 3_600 / 60 == m && tod % 60 == s
  {
    var tod := h * 3_600 + m * 60 + s;
    DivUnique(days * 86_400 + tod, 86_400, days, tod);
    DivUnique(tod, 3_600, h, m * 60 + s);
    DivUnique(m * 60 + s, 60, m, s);
    DivUnique(tod, 60, h * 60 + m, s);
  }

  lemma SecondsReadBack(m: Moment)
    requires IsMoment(m)
    ensures 0 <= SecondsOf(m) <= MAX_SECONDS && MomentOf(SecondsOf(m)) == m
  {
    hide DaysFromCivil, CivilFromDays;
    var days := DaysFromCivil(m.date);
    assert 0 <= days + DAYS_0001_TO_1970 < 3_652_059 by { WindowOfDays(m.date); }
    assert CivilFromDays(days) == m.date by { CivilOfDays(m.date); }
    ClockParts(days + DAYS_0001_TO_1970, m.hour, m.minute, m.second);
  }

  lemma SecondsNameAMoment(seconds: int)
    requires 0 <= seconds <= MAX_SECONDS
    ensures IsMoment(MomentOf(seconds)) && SecondsOf(MomentOf(seconds)) == seconds
  {
    var days := seconds / 86_400 - DAYS_0001_TO_1970;
    DaysOfCivil(days);
    WindowOfDays(CivilFromDays(days));
    var tod := seconds % 86_400;
    assert seconds == seconds / 86_400 * 86_400 + tod;
    TimeParts(tod);
  }

  lemma TimeParts(tod: int)
    requires 0 <= tod < 86_400
    ensures IsTime(tod / 3_600, tod % 3_600 / 60, tod % 60)
    ensures tod / 3_600 * 3_600 + tod % 3_600 / 60 * 60 + tod % 60 == tod
  {
    var r := tod % 3_600;
    assert tod == tod / 3_600 * 3_600 + r && r == r / 60 * 60 + r % 60;
    DivUnique(tod, 60, tod / 3_600 * 60 + r / 60, r % 60);
  }

  // --- The same instant in another zone ---

  /** What `LoadInZone` loads, if anything. */
  function InZone(canonical: string, from: int, to: int): Option<Moment> {
    match ReadMoment(canonical)
    case None => None
    case Some(m) => Shifted(m, from, to)
  }

  function Shifted(m: Moment, from: int, to: int): Option<Moment> {
    var ticks := SecondsOf(m) * TICKS_PER_SECOND + (from - to) * 60 * TICKS_PER_SECOND;
    if ticks < 0 || ticks > MAX_TICKS then None else Some(MomentOf(ticks / TICKS_PER_SECOND))
  }

  function AtSecond(seconds: int): Option<Moment> {
    if 0 <= seconds <= MAX_SECONDS then Some(MomentOf(seconds)) else None
  }

  lemma ShiftedBySeconds(m: Moment, from: int, to: int)
    ensures Shifted(m, from, to) == AtSecond(SecondsOf(m) + (from - to) * 60)
  {
    hide MomentOf, SecondsOf;
    WholeSeconds(SecondsOf(m) + (from - to) * 60);
  }

  lemma WholeSeconds(seconds: int)
    ensures seconds * TICKS_PER_SECOND / TICKS_PER_SECOND == seconds
    ensures 0 <= seconds * TICKS_PER_SECOND <= MAX_TICKS <==> 0 <= seconds <= MAX_SECONDS
  {
    DivUnique(seconds * TICKS_PER_SECOND, TICKS_PER_SECOND, seconds, 0);
  }

  lemma InZoneOfMoment(m: Moment, from: int, to: int)
    requires IsMoment(m)
    ensures InZone(MomentText(m), from, to) == AtSecond(SecondsOf(m) + (from - to) * 60)
  {
    hide MomentOf, SecondsOf;
    MomentTextIsItsReading(m, MomentText(m));
    ShiftedBySeconds(m, from, to);
  }

  /** A moment in another zone is the same instant there, and it loads exactly when the window holds it. */
  lemma ZonesKeepTheInstant(m: Moment, from: int, to: int)
    requires IsMoment(m)
    ensures InZone(MomentText(m), from, to).Some? <==> 0 <= SecondsOf(m) + (from - to) * 60 <= MAX_SECONDS
    ensures InZone(MomentText(m), from, to).Some? ==>
      var moved := InZone(MomentText(m), from, to).value;
      IsMoment(moved) && SecondsOf(moved) + to * 60 == SecondsOf(m) + from * 60
  {
    hide MomentOf, SecondsOf, InZone, MomentText;
    InZoneOfMoment(m, from, to);
    if 0 <= SecondsOf(m) + (from - to) * 60 <= MAX_SECONDS {
      SecondsNameAMoment(SecondsOf(m) + (from - to) * 60);
    }
  }

  /** Loads compose: by way of any zone that can hold the moment, the result is the direct one. */
  lemma ZonesCompose(m: Moment, a: int, b: int, c: int)
    requires IsMoment(m) && InZone(MomentText(m), a, b).Some?
    ensures var there := InZone(MomentText(m), a, b).value;
            IsMoment(there) && InZone(MomentText(there), b, c) == InZone(MomentText(m), a, c)
  {
    hide MomentOf, SecondsOf, InZone, MomentText;
    ZonesKeepTheInstant(m, a, b);
    SameInstantLoadsTheSame(m, InZone(MomentText(m), a, b).value, a, b, c);
  }

  lemma SameInstantLoadsTheSame(m: Moment, there: Moment, a: int, b: int, c: int)
    requires IsMoment(m) && IsMoment(there) && SecondsOf(there) + b * 60 == SecondsOf(m) + a * 60
    ensures InZone(MomentText(there), b, c) == InZone(MomentText(m), a, c)
  {
    hide MomentOf, SecondsOf, InZone, MomentText;
    InZoneOfMoment(m, a, c);
    InZoneOfMoment(there, b, c);
  }

  /** And back again undoes it, across every midnight, month, leap day and year edge. */
  lemma ZonesUndo(m: Moment, a: int, b: int)
    requires IsMoment(m) && InZone(MomentText(m), a, b).Some?
    ensures var there := InZone(MomentText(m), a, b).value;
            IsMoment(there) && InZone(MomentText(there), b, a) == Some(m)
  {
    hide MomentOf, SecondsOf, InZone, MomentText;
    ZonesCompose(m, a, b, a);
    SameZone(m, a);
  }

  lemma SameZone(m: Moment, a: int)
    requires IsMoment(m)
    ensures InZone(MomentText(m), a, a) == Some(m)
  {
    hide MomentOf, SecondsOf, InZone, MomentText;
    InZoneOfMoment(m, a, a);
    SecondsReadBack(m);
  }

  // --- The field ---

  /** What a UTC instant reads as in a zone, if the window holds it: `AddMinutes(-bias)`. */
  function LocalTime(utc: Moment, bias: int): (r: Option<Moment>) {
    var seconds := SecondsOf(utc) - bias * 60;
    if 0 <= seconds <= MAX_SECONDS then Some(MomentOf(seconds)) else None
  }

  /** Some exactly for an instant of the calendar, and then the wall time there. */
  lemma LocalTimeIs(utc: Moment, bias: int)
    requires IsMoment(utc)
    ensures LocalTime(utc, bias).Some? <==> 0 <= SecondsOf(utc) - bias * 60 <= MAX_SECONDS
    ensures LocalTime(utc, bias).Some? ==>
      var local := MomentOf(SecondsOf(utc) - bias * 60);
      LocalTime(utc, bias) == Some(local) && IsMoment(local) && SecondsOf(local) == SecondsOf(utc) - bias * 60
  {
    hide SecondsOf, MomentOf;
    if LocalTime(utc, bias).Some? {
      SecondsNameAMoment(SecondsOf(utc) - bias * 60);
    }
  }

  class MomentField {
    const nd: char -> bool
    var dateText: string
    var timeText: string
    var isValid: bool
    var canonical: string
    var errorPart: Part
    var errorKey: Key
    var raised: nat

    ghost predicate Shows(r: MomentResult)
      reads this
    {
      isValid == r.ok && canonical == r.canonical && errorPart == r.part && errorKey == r.key
    }

    /** Either nothing was typed yet, or what is shown is what the two texts compose to. */
    ghost predicate Valid()
      reads this
    {
      Untouched() || Shows(Compose(nd, dateText, timeText))
    }

    ghost predicate Untouched()
      reads this
    {
      dateText == "" && timeText == "" && Shows(Failed(NoPart, NoKey))
    }

    constructor (nd: char -> bool)
      ensures Valid() && Untouched() && this.nd == nd && raised == 0
    {
      this.nd := nd;
      dateText, timeText, isValid, canonical, errorPart, errorKey := "", "", false, "", NoPart, NoKey;
      raised := 0;
    }

    method Show(r: MomentResult)
      modifies `isValid, `canonical, `errorPart, `errorKey, `raised
      ensures Shows(r) && raised == old(raised) + 1
    {
      isValid, canonical, errorPart, errorKey := r.ok, r.canonical, r.part, r.key;
      raised := raised + 1;
    }

    method Fill(date: string, time: string)
      modifies this
      ensures Valid() && dateText == date && timeText == time && Shows(Compose(nd, date, time))
      ensures raised == old(raised) + 1
    {
      dateText, timeText := date, time;
      Show(Compose(nd, dateText, timeText));
    }

    /** Typing a date; the same text again is no change. */
    method TypeDate(text: string)
      requires Valid()
      modifies this
      ensures Valid() && dateText == text && timeText == old(timeText)
      ensures text != old(dateText) ==> Shows(Compose(nd, text, timeText)) && raised == old(raised) + 1
      ensures text == old(dateText) ==> unchanged(this)
    {
      if text != dateText {
        Fill(text, timeText);
      }
    }

    method LoadCanonical(text: string)
      modifies this
      ensures Valid() && (dateText, timeText) == Split(text)
      ensures forall m :: IsMoment(m) && text == MomentText(m) ==> isValid && canonical == text
    {
      forall m | IsMoment(m) && text == MomentText(m)
        ensures Compose(nd, Split(text).0, Split(text).1) == MomentResult(true, text, NoPart, NoKey)
      {
        ComposeUndoesSplit(nd, m);
      }
      var (date, time) := Split(text);
      Fill(date, time);
    }

    /** True when the field now holds the moment, in the other zone; false when it was left as it was. */
    method LoadInZone(text: string, from: int, to: int) returns (loaded: bool)
      requires Valid()
      modifies this
      ensures Valid() && loaded == InZone(text, from, to).Some?
      ensures loaded ==> IsMoment(InZone(text, from, to).value)
                         && isValid && canonical == MomentText(InZone(text, from, to).value)
      ensures !loaded ==> unchanged(this)
    {
      var read := ReadMoment(text);
      if read.None? {
        return false;
      }
      var shift := (from - to) * 60 * TICKS_PER_SECOND;
      var ticks := SecondsOf(read.value) * TICKS_PER_SECOND + shift;
      if ticks < 0 || ticks > MAX_TICKS {
        return false;
      }
      var shifted := MomentOf(ticks / TICKS_PER_SECOND);
      assert IsMoment(shifted) by { SecondsNameAMoment(ticks / TICKS_PER_SECOND); }
      FillsWith(shifted);
      Fill(DateText(shifted.date), TidyTime(shifted));
      return true;
    }

    lemma FillsWith(m: Moment)
      requires IsMoment(m)
      ensures Compose(nd, DateText(m.date), TidyTime(m)) == MomentResult(true, MomentText(m), NoPart, NoKey)
    {
      SplitReads(m);
      ComposeUndoesSplit(nd, m);
    }

    method Clear()
      modifies this
      ensures Valid() && Untouched() && raised == old(raised) + 1
    {
      dateText, timeText := "", "";
      Show(Failed(NoPart, NoKey));
    }

    /** Midnight of the day it is in the session's zone. `AddMinutes` throws where the zone carries it past the
        calendar's ends, before anything of the field has changed. */
    method SetToday(bias: int, utc: Moment) returns (threw: bool)
      requires Valid() && IsMoment(utc)
      modifies this
      ensures Valid() && (threw <==> !(0 <= SecondsOf(utc) - bias * 60 <= MAX_SECONDS))
      ensures !threw ==> var local := MomentOf(SecondsOf(utc) - bias * 60);
        && IsMoment(local) && SecondsOf(local) == SecondsOf(utc) - bias * 60
        && isValid && canonical == MomentText(Moment(local.date, 0, 0, 0)) && timeText == ""
      ensures threw ==> unchanged(this)
    {
      hide SecondsOf, MomentOf, MomentText, LocalTime;
      LocalTimeIs(utc, bias);
      var local := LocalTime(utc, bias);
      if local.None? {
        return true;
      }
      DateReads(local.value.date);
      MomentEdges(DateText(local.value.date));
      Fill(DateText(local.value.date), "");
      return false;
    }

    /** The wall time it is in the session's zone; throws where `SetToday` does. */
    method SetNow(bias: int, utc: Moment) returns (threw: bool)
      requires Valid() && IsMoment(utc)
      modifies this
      ensures Valid() && (threw <==> !(0 <= SecondsOf(utc) - bias * 60 <= MAX_SECONDS))
      ensures !threw ==> var local := MomentOf(SecondsOf(utc) - bias * 60);
        && IsMoment(local) && SecondsOf(local) == SecondsOf(utc) - bias * 60
        && isValid && canonical == MomentText(local)
      ensures threw ==> unchanged(this)
    {
      hide SecondsOf, MomentOf, MomentText, LocalTime;
      LocalTimeIs(utc, bias);
      var local := LocalTime(utc, bias);
      if local.None? {
        return true;
      }
      FillsWith(local.value);
      Fill(DateText(local.value.date), TidyTime(local.value));
      return false;
    }
  }
}
