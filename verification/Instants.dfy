/** A session moment as a FILETIME and back (crates/core/src/lib.rs, crates/core/src/calc.rs):
    100 ns ticks since 1601, held in 64 bits, with UTC = local + bias. */
module Instants {
  import opened Civil
  import opened SessionClock
  import opened Wrappers

  const CIVIL_YEAR_MIN := -262_143
  const CIVIL_YEAR_MAX := 262_143
  const ZONE_BIAS_MAX_MIN := 14 * 60 + 59
  const DAYS_1601_TO_1970 := 134_774
  const SECOND := 10_000_000

  datatype Error = BadZone | NotAMoment | OutOfRange

  datatype Result<+T> = Ok(value: T) | Err(error: Error)

  datatype CivilDateTime = CivilDateTime(date: Date, hour: int, minute: int, second: int)

  predicate YearInBand(year: int) { CIVIL_YEAR_MIN <= year <= CIVIL_YEAR_MAX }

  predicate ZoneInRange(bias: int) { -ZONE_BIAS_MAX_MIN <= bias <= ZONE_BIAS_MAX_MIN }

  /** What `parse_civil` lets through. */
  predicate IsMomentText(c: CivilDateTime) {
    && YearInBand(c.date.year) && IsDate(c.date)
    && 0 <= c.hour <= 23 && 0 <= c.minute <= 59 && 0 <= c.second <= 59
  }

  /** An operation that answers only what 64 bits can hold. */
  function Checked(x: int): Option<int> { if IsI64(x) then Some(x) else None }

  function TimeOfDay(c: CivilDateTime): int { c.hour * 3_600 + c.minute * 60 + c.second }

  function EpochSecs(c: CivilDateTime, bias: int): Option<int> {
    match Checked(DaysFromCivil(c.date) * 86_400)
    case None => None
    case Some(day) =>
      match Checked(day + TimeOfDay(c))
      case None => None
      case Some(local) => Checked(local + bias * 60)
  }

  function FiletimeUtc(c: CivilDateTime, bias: int): Option<int> {
    match EpochSecs(c, bias)
    case None => None
    case Some(secs) =>
      match Checked(secs + DAYS_1601_TO_1970 * 86_400)
      case None => None
      case Some(since1601) =>
        match Checked(since1601 * SECOND)
        case None => None
        case Some(ft) => if ft >= 0 then Some(ft) else None
  }

  function InSessionRange(ft: int, bias: int): bool {
    var local := Checked(ft - bias * 60 * SECOND);
    0 <= ft <= FAKE_WALL_MAX && local.Some? && local.value >= 0
  }

  /** `session_instant`, of a text already split into its fields: the zone is judged first, then the text. */
  function SessionInstant(c: CivilDateTime, bias: Option<int>): Result<int> {
    if bias.None? || !ZoneInRange(bias.value) then Err(BadZone)
    else if !IsMomentText(c) then Err(NotAMoment)
    else
      match FiletimeUtc(c, bias.value)
      case None => Err(OutOfRange)
      case Some(ft) => if InSessionRange(ft, bias.value) then Ok(ft) else Err(OutOfRange)
  }

  function CivilOfEpoch(secs: int, bias: int): CivilDateTime {
    var local := Saturate(secs - bias * 60);
    var tod := local % 86_400;
    CivilDateTime(CivilFromDays(local / 86_400), tod / 3_600, tod % 3_600 / 60, tod % 60)
  }

  function FiletimeToCivil(ft: int, bias: int): CivilDateTime {
    CivilOfEpoch(ft / SECOND - DAYS_1601_TO_1970 * 86_400, bias)
  }

  // --- What the conversions promise ---

  /** The exact tick a moment names, whatever can hold it. */
  function ExactTicks(c: CivilDateTime, bias: int): int {
    ((DaysFromCivil(c.date) - DaysFromCivil(Date(1601, 1, 1))) * 86_400 + c.hour * 3_600 + c.minute * 60 + c.second
     + bias * 60) * 10_000_000
  }

  lemma TheEpochs()
    ensures DaysFromCivil(Date(1601, 1, 1)) == -DAYS_1601_TO_1970 && DaysFromCivil(Date(1970, 1, 1)) == 0
  {
    First1601();
    hide DaysFromCivil;
    EraBack(0);
  }

  lemma First1601()
    ensures DaysFromCivil(Date(1601, 1, 1)) == -134_774
  {
  }

  lemma DaysOfBand(d: Date)
    requires IsDate(d) && YearInBand(d.year)
    ensures -100_000_000 <= DaysFromCivil(d) <= 100_000_000
  {
    DaysInParts(d);
    var y := MarchYear(d);
    assert y == y / 400 * 400 + y % 400;
  }

  /** A moment of the band has a FILETIME exactly when its tick is one 64 bits can hold from 1601 on, and
      then it is that tick. */
  lemma FiletimeIsExact(c: CivilDateTime, bias: int)
    requires IsMomentText(c) && ZoneInRange(bias)
    ensures DaysFromCivil(Date(1970, 1, 1)) == 0
    ensures FiletimeUtc(c, bias) == if 0 <= ExactTicks(c, bias) <= I64_MAX then Some(ExactTicks(c, bias)) else None
  {
    hide DaysFromCivil;
    DaysOfBand(c.date);
    TheEpochs();
  }

  lemma ClockOfSeconds(days: int, c: CivilDateTime)
    requires 0 <= c.hour <= 23 && 0 <= c.minute <= 59 && 0 <= c.second <= 59
    ensures var local := days * 86_400 + TimeOfDay(c);
            && local / 86_400 == days && local % 86_400 == TimeOfDay(c)
            && TimeOfDay(c) / 3_600 == c.hour && TimeOfDay(c) % 3_600 / 60 == c.minute && TimeOfDay(c) % 60 == c.second
  {
    DivUnique(days * 86_400 + TimeOfDay(c), 86_400, days, TimeOfDay(c));
    DivUnique(TimeOfDay(c), 3_600, c.hour, c.minute * 60 + c.second);
    DivUnique(c.minute * 60 + c.second, 60, c.minute, c.second);
    DivUnique(TimeOfDay(c), 60, c.hour * 60 + c.minute, c.second);
  }

  lemma WholeSecond(secs: int, bias: int)
    ensures FiletimeToCivil((secs + DAYS_1601_TO_1970 * 86_400) * SECOND, bias) == CivilOfEpoch(secs, bias)
  {
    var since1601 := secs + DAYS_1601_TO_1970 * 86_400;
    DivUnique(since1601 * SECOND, SECOND, since1601, 0);
  }

  lemma WallOfDays(days: int, c: CivilDateTime, bias: int)
    requires 0 <= c.hour <= 23 && 0 <= c.minute <= 59 && 0 <= c.second <= 59
    requires CivilFromDays(days) == c.date && -100_000_000 <= days <= 100_000_000
    ensures var secs := days * 86_400 + TimeOfDay(c) + bias * 60;
            FiletimeToCivil((secs + DAYS_1601_TO_1970 * 86_400) * SECOND, bias) == c
  {
    hide CivilFromDays;
    WholeSecond(days * 86_400 + TimeOfDay(c) + bias * 60, bias);
    ClockOfSeconds(days, c);
  }

  /** The wall text of a moment's FILETIME, in the zone the moment was read in, is the moment. */
  lemma WallRoundTrips(c: CivilDateTime, bias: int)
    requires IsMomentText(c) && ZoneInRange(bias) && FiletimeUtc(c, bias).Some?
    ensures FiletimeToCivil(FiletimeUtc(c, bias).value, bias) == c
  {
    hide DaysFromCivil, CivilFromDays, FiletimeUtc;
    TheEpochs();
    DaysOfBand(c.date);
    CivilOfDays(c.date);
    FiletimeIsExact(c, bias);
    var days := DaysFromCivil(c.date);
    WallOfDays(days, c, bias);
  }

  /** The other way: the wall text of any FILETIME, read back in its zone, is that FILETIME to the second. */
  lemma FiletimeRoundTrips(ft: int, bias: int)
    requires 0 <= ft <= I64_MAX && ZoneInRange(bias)
    ensures var c := FiletimeToCivil(ft, bias);
            IsDate(c.date) && ExactTicks(c, bias) == ft - ft % SECOND
  {
    TheEpochs();
    hide CivilFromDays, DaysFromCivil;
    var secs := ft / SECOND - DAYS_1601_TO_1970 * 86_400;
    var local := secs - bias * 60;
    DaysOfCivil(local / 86_400);
    var tod := local % 86_400;
    assert tod == tod / 3_600 * 3_600 + tod % 3_600;
    assert tod % 3_600 == tod % 3_600 / 60 * 60 + tod % 3_600 % 60;
    DivUnique(tod, 60, tod / 3_600 * 60 + tod % 3_600 / 60, tod % 3_600 % 60);
    assert ft == ft / SECOND * SECOND + ft % SECOND;
  }

  /** A moment becomes a session clock exactly when its zone is within a minute of fifteen hours, it is a real date and
      time of the band, and both its UTC and its local tick stand from 1601 to the last the clock may name; the first of
      these it fails is what is said of it. */
  lemma SessionInstantIff(c: CivilDateTime, bias: Option<int>)
    ensures SessionInstant(c, bias) ==
      if bias.None? || bias.value < -899 || 899 < bias.value then Err(BadZone)
      else if !(IsDate(c.date) && -262_143 <= c.date.year <= 262_143
                && 0 <= c.hour < 24 && 0 <= c.minute < 60 && 0 <= c.second < 60) then Err(NotAMoment)
      else
        var (ticks, local) := (ExactTicks(c, bias.value), ExactTicks(c, bias.value) - bias.value * 600_000_000);
        if 0 <= ticks <= FAKE_WALL_MAX && 0 <= local then Ok(ticks) else Err(OutOfRange)
  {
    hide FiletimeUtc, ExactTicks, IsDate;
    if bias.Some? && ZoneInRange(bias.value) && IsMomentText(c) {
      FiletimeIsExact(c, bias.value);
    }
  }

  /** Whatever the session's clock reads, at any speed and for any length of time, its local time in every
      zone a session runs in still fits; and the last second of the clock is the last that leaves room. */
  lemma EveryZoneHasRoom(fake: int, origin: int, clock: int, rate: int, bias: int)
    requires ZoneInRange(bias)
    ensures 0 <= WallAt(fake, origin, clock, rate) <= FAKE_WALL_MAX
    ensures IsI64(WallAt(fake, origin, clock, rate) - bias * 60 * SECOND)
    ensures FAKE_WALL_MAX % 10_000_000 == 0
    ensures FAKE_WALL_MAX + 540_000_000_000 <= 0x7fff_ffff_ffff_ffff < FAKE_WALL_MAX + 540_000_000_000 + 10_000_000
  {
  }
}
