/** The calculator's result column (gui/ChronoMock.App/Calc/CalculatorViewModel.cs, AnswerClock.cs): a builder
    that is edited, an engine that answers in any order, a clock that moves on - and the presses that take the
    result away, over every run of events. */
module Calculator {
  import opened AnswerSlots
  import opened Wrappers

  datatype Base = Today | Now | Specific

  datatype Zone = Host | Fixed(bias: int)

  /** Everything a question is built from; `rest` stands for the steps, the calendar and the mask. */
  datatype Builder = Builder(base: Base, zone: Zone, valid: bool, rest: nat)

  /** What the clock contributes to an answer. */
  datatype Stamp = Timeless | Day(day: int) | Second(second: int)

  /** `host` is the machine's own wall clock at an instant; any other zone is a fixed offset, UTC = local + bias. */
  function StampOf(host: int -> int, b: Builder, instant: int): Stamp {
    match b.base
    case Today => Day((if b.zone.Host? then host(instant) else instant - 60 * b.zone.bias) / 86400)
    case Now => Second(instant)
    case Specific => Timeless
  }

  /** What the engine answers: a moment with its rows, or a refusal. */
  datatype Result = Moment(local: string, bias: int, transferable: bool, rows: seq<Option<string>>) | Refused

  datatype Run = Run(builder: Builder, askedAt: int, replied: bool)

  datatype Shown = Shown(builder: Builder, askedAt: int, result: Result)

  /** `epoch` counts how often the rows were taken off the screen, `scheduled` how many
      debounced runs may still come: an edit's own, and those before it that were waited out when it came. */
  datatype Column = Column(
    builder: Builder,
    shownOnce: bool,
    slot: Slot,
    runs: seq<Run>,
    shown: Option<Shown>,
    askedClock: Stamp,
    epoch: nat,
    scheduled: nat)

  function Clear(c: Column): Column { c.(shown := None, epoch := c.epoch + 1) }

  /** One run from its ticket on; a base that cannot be read is answered at once, with no result. */
  function Recompute(c: Column, host: int -> int, now: int): Column {
    if c.slot.current then c
    else if c.builder.base.Specific? && !c.builder.valid then Clear(c).(slot := CURRENT)
    else
      c.(slot := c.slot.Begin(|c.runs|),
         runs := c.runs + [Run(c.builder, now, false)],
         askedClock := StampOf(host, c.builder, now))
  }

  /** An edit asks at once, and its run comes after the quiet period; before the first reveal it does neither. */
  function Edit(c: Column, b: Builder): Column {
    if c.shownOnce then c.(builder := b, slot := c.slot.Ask(), scheduled := c.scheduled + 1) else c.(builder := b)
  }

  function Fire(c: Column, host: int -> int, now: int): Column {
    if c.scheduled > 0 then Recompute(c.(scheduled := c.scheduled - 1), host, now) else c
  }

  /** A preset that waits for its parameters, or cannot be built: no result, and none coming. */
  function Withhold(c: Column, b: Builder): Column {
    if c.shownOnce then Clear(c.(builder := b, slot := c.slot.Settle())) else c
  }

  function Reply(c: Column, run: nat, r: Result): Column {
    if run < |c.runs| && !c.runs[run].replied then
      var told := c.(runs := c.runs[run := c.runs[run].(replied := true)], slot := c.slot.Answer(run));
      if c.slot.live != Some(run) then told
      else if r.Refused? then Clear(told)
      else told.(shown := Some(Shown(c.runs[run].builder, c.runs[run].askedAt, r)))
    else c
  }

  predicate ClockMoved(c: Column, host: int -> int, now: int) {
    c.shown.Some? && !c.builder.base.Specific? && StampOf(host, c.builder, now) != c.askedClock
  }

  /** Ask again when the clock has moved past the answer on screen. */
  function AskAgain(c: Column, host: int -> int, now: int): Column {
    if ClockMoved(c, host, now) then Recompute(c.(slot := c.slot.Ask()), host, now) else c
  }

  /** The screen is shown: the first time it computes, after that only for a clock that moved. */
  function Reveal(c: Column, host: int -> int, now: int): Column {
    if c.shownOnce then AskAgain(c, host, now) else Recompute(c.(shownOnce := true, slot := c.slot.Ask()), host, now)
  }

  // --- Presses ---

  /** A "Use this date" that went through: the answer it took, the builder beside it, and when it was pressed. */
  datatype Transfer = Transfer(shown: Shown, builder: Builder, pressedAt: int)

  /** What a Copy press put on the clipboard: a row's text with the answer and the builder it was read beside. */
  datatype Taken = Nothing | Took(text: string, shown: Shown, builder: Builder)

  /** A Copy press on a row, with its outcome once it is done. */
  datatype Copy = Copy(epoch: nat, row: nat, pressedAt: int, outcome: Option<Taken>)

  datatype Screen = Screen(
    column: Column,
    now: int,
    sending: Option<int>,
    transfers: seq<Transfer>,
    copies: seq<Copy>)

  datatype Event =
    | EditBuilder(builder: Builder)
    | QuietEnds
    | PresetWaits(builder: Builder)
    | EngineReplies(run: nat, result: Result)
    | Show
    | Tick(seconds: nat)
    | PressUse
    | UseWakes
    | UseGivesUp
    | PressCopy(row: nat)
    | CopyWakes(copy: nat)
    | CopyGivesUp(copy: nat)

  function Send(s: Screen, pressedAt: int): Screen {
    if s.column.shown.Some? && s.column.shown.value.result.Moment? && s.column.shown.value.result.transferable then
      s.(transfers := s.transfers + [Transfer(s.column.shown.value, s.column.builder, pressedAt)])
    else s
  }

  /** One press, one transfer: a press while another still waits does nothing. */
  function Use(s: Screen, host: int -> int): Screen {
    if s.sending.Some? then s
    else
      var asked := s.(column := AskAgain(s.column, host, s.now));
      if asked.column.slot.current then Send(asked, s.now) else asked.(sending := Some(s.now))
  }

  function UseWoken(s: Screen): Screen {
    if s.sending.Some? && s.column.slot.current then Send(s.(sending := None), s.sending.value) else s
  }

  /** What a row a press holds has to copy: nothing, once the rows it was one of are gone. */
  function RowValue(c: Column, copy: Copy): Taken {
    if copy.epoch == c.epoch && c.shown.Some? && c.shown.value.result.Moment?
       && copy.row < |c.shown.value.result.rows| && c.shown.value.result.rows[copy.row].Some?
    then Took(c.shown.value.result.rows[copy.row].value, c.shown.value, c.builder)
    else Nothing
  }

  function CopyRow(s: Screen, host: int -> int, row: nat): Screen {
    var asked := s.(column := AskAgain(s.column, host, s.now));
    var copy := Copy(s.column.epoch, row, s.now, None);
    asked.(copies := s.copies + [
      if asked.column.slot.current then copy.(outcome := Some(RowValue(asked.column, copy))) else copy])
  }

  predicate CopyWaits(s: Screen, k: nat) { k < |s.copies| && s.copies[k].outcome.None? }

  function CopyWoken(s: Screen, k: nat): Screen {
    if CopyWaits(s, k) && s.column.slot.current then
      s.(copies := s.copies[k := s.copies[k].(outcome := Some(RowValue(s.column, s.copies[k])))])
    else s
  }

  function Step(s: Screen, host: int -> int, e: Event): Screen {
    match e
    case EditBuilder(b) => s.(column := Edit(s.column, b))
    case QuietEnds => s.(column := Fire(s.column, host, s.now))
    case PresetWaits(b) => s.(column := Withhold(s.column, b))
    case EngineReplies(run, r) => s.(column := Reply(s.column, run, r))
    case Show => s.(column := Reveal(s.column, host, s.now))
    case Tick(seconds) => s.(now := s.now + seconds)
    case PressUse => Use(s, host)
    case UseWakes => UseWoken(s)
    case UseGivesUp => s.(sending := None)
    case PressCopy(row) => CopyRow(s, host, row)
    case CopyWakes(k) => CopyWoken(s, k)
    case CopyGivesUp(k) =>
      if CopyWaits(s, k) then s.(copies := s.copies[k := s.copies[k].(outcome := Some(Nothing))]) else s
  }

  function After(s: Screen, host: int -> int, events: seq<Event>): Screen
    decreases |events|
  {
    if events == [] then s else After(Step(s, host, events[0]), host, events[1..])
  }

  predicate Fresh(s: Screen) {
    && !s.column.shownOnce && s.column.slot == CURRENT && s.column.runs == [] && s.column.shown == None
    && s.column.scheduled == 0 && s.sending == None && s.transfers == [] && s.copies == []
  }

  // --- What every event keeps ---

  /** A result that is current answers the builder beside it, and a run that would be accepted was asked for
      it; the stamp kept is that of the question asked last. */
  predicate Honest(c: Column, host: int -> int) {
    && (c.slot.live.Some? ==>
          var r := c.slot.live.value;
          && !c.slot.current && r < |c.runs| && !c.runs[r].replied && c.runs[r].builder == c.builder
          && c.askedClock == StampOf(host, c.builder, c.runs[r].askedAt))
    && (c.slot.current && c.shown.Some? ==>
          && c.shown.value.builder == c.builder && c.shown.value.result.Moment?
          && c.askedClock == StampOf(host, c.builder, c.shown.value.askedAt))
    && (!c.shownOnce ==> c.shown.None? && c.slot == CURRENT)
  }

  lemma HonestStep(s: Screen, host: int -> int, e: Event)
    requires Honest(s.column, host)
    ensures Honest(Step(s, host, e).column, host)
  {
    hide StampOf;
  }

  // --- The clock ---

  /** Midnight on the wall of a fixed zone, as an instant. */
  function Midnight(day: int, bias: int): int { 86400 * day + 60 * bias }

  ghost predicate MidnightBetween(bias: int, earlier: int, later: int) {
    exists day :: earlier < Midnight(day, bias) <= later
  }

  /** Two instants are of one time for a base: of one day on the wall of its zone, of one second, or any. */
  ghost predicate OfOneTime(host: int -> int, b: Builder, x: int, y: int) {
    match b.base
    case Today =>
      if b.zone.Host? then host(x) / 86400 == host(y) / 86400
      else !MidnightBetween(b.zone.bias, x, y) && !MidnightBetween(b.zone.bias, y, x)
    case Now => x == y
    case Specific => true
  }

  /** The stamps of two instants are the same exactly if they are of one time. */
  lemma StampsAgreeIff(host: int -> int, b: Builder, x: int, y: int)
    ensures StampOf(host, b, x) == StampOf(host, b, y) <==> OfOneTime(host, b, x, y)
  {
    if b.base.Today? && b.zone.Fixed? {
      DaysDifferIff(b.zone.bias, x, y);
      DaysDifferIff(b.zone.bias, y, x);
    }
  }

  lemma DaysDifferIff(bias: int, earlier: int, later: int)
    ensures (earlier - 60 * bias) / 86400 < (later - 60 * bias) / 86400 <==> MidnightBetween(bias, earlier, later)
  {
    var (first, last) := ((earlier - 60 * bias) / 86400, (later - 60 * bias) / 86400);
    if first < last {
      assert earlier < Midnight(last, bias) <= later;
    }
    if day :| earlier < Midnight(day, bias) <= later {
      assert first < day <= last;
    }
  }

  /** An answer asked at or after a press, or at an instant of one time with it. */
  ghost predicate Fits(host: int -> int, b: Builder, askedAt: int, pressedAt: int) {
    askedAt >= pressedAt || OfOneTime(host, b, askedAt, pressedAt)
  }

  /** Whatever a press made then comes to take from the column fits it. */
  ghost predicate WillFit(c: Column, host: int -> int, pressedAt: int) {
    && (c.slot.live.Some? && c.slot.live.value < |c.runs| ==>
          Fits(host, c.builder, c.runs[c.slot.live.value].askedAt, pressedAt))
    && (c.slot.current && c.shown.Some? ==> Fits(host, c.builder, c.shown.value.askedAt, pressedAt))
  }

  /** A result is on screen, or nothing is on its way, or what is on its way was asked at an instant of one time. */
  ghost predicate FindsItsTime(c: Column, host: int -> int, now: int) {
    c.shown.Some? || c.slot.live.None? || c.slot.live.value >= |c.runs|
    || Fits(host, c.builder, c.runs[c.slot.live.value].askedAt, now)
  }

  /** A press finds, after its own look at the clock, only answers that fit it - unless no result was on screen
      and the run on its way was asked under another stamp. */
  lemma APressFindsWhatFitsIff(c: Column, host: int -> int, now: int)
    requires Honest(c, host)
    ensures Honest(AskAgain(c, host, now), host)
    ensures WillFit(AskAgain(c, host, now), host, now) <==> FindsItsTime(c, host, now)
  {
    if c.shown.Some? {
      StampsAgreeIff(host, c.builder, c.shown.value.askedAt, now);
    }
    if c.slot.live.Some? && c.slot.live.value < |c.runs| {
      StampsAgreeIff(host, c.builder, c.runs[c.slot.live.value].askedAt, now);
    }
    hide OfOneTime;
  }

  lemma RecomputeFits(c: Column, host: int -> int, now: int, pressedAt: int)
    requires WillFit(c, host, pressedAt) && pressedAt <= now
    ensures WillFit(Recompute(c, host, now), host, pressedAt)
  {
  }

  lemma ReplyFits(c: Column, host: int -> int, run: nat, r: Result, pressedAt: int)
    requires WillFit(c, host, pressedAt) && Honest(c, host)
    ensures WillFit(Reply(c, run, r), host, pressedAt)
  {
  }

  function ColumnStep(s: Screen, host: int -> int, e: Event): Column { Step(s, host, e).column }

  lemma ColumnFits(s: Screen, host: int -> int, e: Event, pressedAt: int)
    requires Honest(s.column, host) && WillFit(s.column, host, pressedAt) && pressedAt <= s.now
    ensures WillFit(ColumnStep(s, host, e), host, pressedAt)
  {
    hide StampOf, Fits;
    match e
    case QuietEnds =>
      if s.column.scheduled > 0 {
        RecomputeFits(s.column.(scheduled := s.column.scheduled - 1), host, s.now, pressedAt);
      }
    case EngineReplies(run, r) => ReplyFits(s.column, host, run, r, pressedAt);
    case Show =>
      RecomputeFits(s.column.(slot := s.column.slot.Ask()), host, s.now, pressedAt);
      RecomputeFits(s.column.(shownOnce := true, slot := s.column.slot.Ask()), host, s.now, pressedAt);
    case PressUse => RecomputeFits(s.column.(slot := s.column.slot.Ask()), host, s.now, pressedAt);
    case PressCopy(_) => RecomputeFits(s.column.(slot := s.column.slot.Ask()), host, s.now, pressedAt);
    case _ =>
  }

  // --- Every press ever made ---

  /** A transfer, or a copied text, is of the answer to the builder as it stood, and that answer fits the press. */
  ghost predicate Sent(host: int -> int, t: Transfer) {
    t.shown.builder == t.builder && t.shown.result.Moment? && Fits(host, t.builder, t.shown.askedAt, t.pressedAt)
  }

  ghost predicate Copied(host: int -> int, k: Copy) {
    match k.outcome
    case None => true
    case Some(Nothing) => true
    case Some(Took(text, shown, builder)) =>
      && shown.builder == builder && shown.result.Moment? && Fits(host, builder, shown.askedAt, k.pressedAt)
      && k.row < |shown.result.rows| && shown.result.rows[k.row] == Some(text)
  }

  ghost predicate Waiting(s: Screen, host: int -> int, pressedAt: int) {
    pressedAt <= s.now && WillFit(s.column, host, pressedAt)
  }

  ghost predicate AllTrue(s: Screen, host: int -> int) {
    && Honest(s.column, host)
    && (s.sending.Some? ==> Waiting(s, host, s.sending.value))
    && (forall i :: 0 <= i < |s.transfers| ==> Sent(host, s.transfers[i]))
    && (forall k :: 0 <= k < |s.copies| ==> Copied(host, s.copies[k]))
    && (forall k :: 0 <= k < |s.copies| && s.copies[k].outcome.None? ==> Waiting(s, host, s.copies[k].pressedAt))
  }

  /** A press that does something finds its time. */
  ghost predicate Timely(s: Screen, host: int -> int, e: Event) {
    (e.PressUse? && s.sending.None?) || e.PressCopy? ==> FindsItsTime(s.column, host, s.now)
  }

  ghost predicate TimelyRun(s: Screen, host: int -> int, events: seq<Event>)
    decreases |events|
  {
    events != [] ==> Timely(s, host, events[0]) && TimelyRun(Step(s, host, events[0]), host, events[1..])
  }

  lemma WaitsStayTrue(s: Screen, host: int -> int, e: Event, pressedAt: int)
    requires Honest(s.column, host) && Waiting(s, host, pressedAt)
    ensures Waiting(Step(s, host, e), host, pressedAt)
  {
    ColumnFits(s, host, e, pressedAt);
  }

  lemma UseStaysTrue(s: Screen, host: int -> int, e: Event)
    requires AllTrue(s, host) && Timely(s, host, e) && (e.PressUse? || e.UseWakes?)
    ensures var n := Step(s, host, e);
      && (forall i :: 0 <= i < |n.transfers| ==> Sent(host, n.transfers[i]))
      && (n.sending.Some? ==> Waiting(n, host, n.sending.value))
  {
    hide AskAgain, Fits, Copied, FindsItsTime;
    if e.PressUse? && s.sending.None? {
      APressFindsWhatFitsIff(s.column, host, s.now);
    }
  }

  lemma CopiesStayTrue(s: Screen, host: int -> int, e: Event)
    requires AllTrue(s, host) && Timely(s, host, e) && (e.PressCopy? || e.CopyWakes?)
    ensures var n := Step(s, host, e);
      && (forall k :: 0 <= k < |n.copies| ==> Copied(host, n.copies[k]))
      && (e.PressCopy? ==> Waiting(n, host, s.now) && n.copies[|s.copies|].pressedAt == s.now)
  {
    hide AskAgain, Fits, Sent, FindsItsTime;
    if e.PressCopy? {
      APressFindsWhatFitsIff(s.column, host, s.now);
    }
  }

  lemma AllTrueStep(s: Screen, host: int -> int, e: Event)
    requires AllTrue(s, host) && Timely(s, host, e)
    ensures AllTrue(Step(s, host, e), host)
  {
    var n := Step(s, host, e);
    HonestStep(s, host, e);
    if e.PressUse? || e.UseWakes? {
      UseStaysTrue(s, host, e);
    }
    if e.PressCopy? || e.CopyWakes? {
      CopiesStayTrue(s, host, e);
    }
    if s.sending.Some? {
      WaitsStayTrue(s, host, e, s.sending.value);
    }
    forall k | 0 <= k < |n.copies| && n.copies[k].outcome.None? ensures Waiting(n, host, n.copies[k].pressedAt) {
      hide Waiting, AskAgain, Honest;
      if k < |s.copies| {
        assert s.copies[k].outcome.None? && n.copies[k].pressedAt == s.copies[k].pressedAt;
        WaitsStayTrue(s, host, e, s.copies[k].pressedAt);
      }
    }
    hide Honest, Waiting, Sent, Copied, AskAgain, Recompute;
  }

  /** A press that does not find its time leaves someone waiting for an answer of another. */
  lemma UntimelyIsNotTrue(s: Screen, host: int -> int, e: Event)
    requires AllTrue(s, host) && !Timely(s, host, e)
    ensures !AllTrue(Step(s, host, e), host)
  {
    var n := Step(s, host, e);
    hide Fits, StampOf, Sent, Copied;
    if e.PressUse? {
      assert n.sending == Some(s.now) && n.column == s.column;
    } else {
      assert n.copies[|s.copies|].outcome.None? && n.copies[|s.copies|].pressedAt == s.now && n.column == s.column;
    }
  }

  ghost predicate TrueThroughout(s: Screen, host: int -> int, events: seq<Event>) {
    forall k :: 0 <= k <= |events| ==> AllTrue(After(s, host, events[..k]), host)
  }

  /** Every use and copy made, and whatever a waiting one may come to take, is of its own time throughout a run,
      exactly if every press in it finds its time. */
  lemma {:induction false} TrueThroughoutIff(s: Screen, host: int -> int, events: seq<Event>)
    requires AllTrue(s, host)
    ensures TrueThroughout(s, host, events) <==> TimelyRun(s, host, events)
    decreases |events|
  {
    hide AllTrue, Step, Timely;
    if events == [] {
      assert events[..0] == [];
    } else {
      var n := Step(s, host, events[0]);
      assert forall k :: 1 <= k <= |events| ==> events[..k][1..] == events[1..][..k - 1];
      assert AllTrue(n, host) <==> Timely(s, host, events[0]) by {
        if Timely(s, host, events[0]) {
          AllTrueStep(s, host, events[0]);
        } else {
          UntimelyIsNotTrue(s, host, events[0]);
        }
      }
      if AllTrue(n, host) {
        TrueThroughoutIff(n, host, events[1..]);
        ThroughoutOnward(s, host, events);
      } else {
        assert events[..1][1..] == [];
        assert After(s, host, events[..1]) == n;
      }
    }
  }

  lemma ThroughoutOnward(s: Screen, host: int -> int, events: seq<Event>)
    requires events != [] && AllTrue(s, host)
    ensures TrueThroughout(s, host, events) <==> TrueThroughout(Step(s, host, events[0]), host, events[1..])
  {
    hide AllTrue, Step;
    var n := Step(s, host, events[0]);
    assert forall k :: 1 <= k <= |events| ==> events[..k][1..] == events[1..][..k - 1];
    if TrueThroughout(s, host, events) {
      forall k | 0 <= k <= |events[1..]| ensures AllTrue(After(n, host, events[1..][..k]), host) {
        assert AllTrue(After(s, host, events[..k + 1]), host);
      }
    }
    if TrueThroughout(n, host, events[1..]) {
      forall k | 0 <= k <= |events| ensures AllTrue(After(s, host, events[..k]), host) {
        if k > 0 {
          assert AllTrue(After(n, host, events[1..][..k - 1]), host);
        }
      }
    }
  }

  /** However the builder is edited, the engine answers and the clock moves: each use and each copy took the
      answer to the builder as it stood, asked on the press's own day or second, or after the press. */
  lemma EveryPressTakesTheAnswerOfItsTime(start: Screen, host: int -> int, events: seq<Event>)
    requires Fresh(start) && TimelyRun(start, host, events)
    ensures var s := After(start, host, events);
      && (forall i :: 0 <= i < |s.transfers| ==> Sent(host, s.transfers[i]))
      && (forall k :: 0 <= k < |s.copies| ==> Copied(host, s.copies[k]))
  {
    TrueThroughoutIff(start, host, events);
    assert events[..|events|] == events;
    assert AllTrue(After(start, host, events[..|events|]), host);
  }

  lemma AfterFive(s: Screen, host: int -> int, a: Event, b: Event, c: Event, d: Event, e: Event)
    ensures After(s, host, [a, b, c, d, e])
         == Step(Step(Step(Step(Step(s, host, a), host, b), host, c), host, d), host, e)
  {
    hide Step;
    assert [a, b, c, d, e][1..] == [b, c, d, e] && [b, c, d, e][1..] == [c, d, e] && [c, d, e][1..] == [d, e]
        && [d, e][1..] == [e] && [e][1..] == [];
    var (s1, s2) := (Step(s, host, a), Step(Step(s, host, a), host, b));
    assert After(s, host, [a, b, c, d, e]) == After(s1, host, [b, c, d, e]) == After(s2, host, [c, d, e])
        == After(Step(s2, host, c), host, [d, e]) == After(Step(Step(s2, host, c), host, d), host, [e]);
  }

  /** The first answer of all is on its way, a day passes, a press comes before it: it takes yesterday's answer. */
  lemma APressWithNoResultTakesYesterdays(start: Screen, host: int -> int, result: Result)
    requires Fresh(start) && start.column.builder.base.Today? && start.column.builder.zone.Fixed?
    requires result.Moment? && result.transferable
    ensures var s := After(start, host, [Show, Tick(86400), PressUse, EngineReplies(0, result), UseWakes]);
      && |s.transfers| == 1 && !Sent(host, s.transfers[0])
      && s.transfers[0].shown == Shown(start.column.builder, start.now, result)
      && s.transfers[0].pressedAt == start.now + 86400
  {
    AfterFive(start, host, Show, Tick(86400), PressUse, EngineReplies(0, result), UseWakes);
    PressedADayLater(start, host);
    var pressed := Step(Step(Step(start, host, Show), host, Tick(86400)), host, PressUse);
    AnsweredThen(pressed, host, start.column.builder, start.now, result);
    hide Step, Sent;
    NotOfItsTime(host, start.column.builder, start.now);
  }

  /** What is on its way was asked on the first day, the press was made on the second. */
  lemma PressedADayLater(start: Screen, host: int -> int)
    requires Fresh(start) && start.column.builder.base.Today?
    ensures var s := Step(Step(Step(start, host, Show), host, Tick(86400)), host, PressUse);
      && s.column.runs == [Run(start.column.builder, start.now, false)] && s.column.slot == Slot(false, Some(0))
      && s.column.builder == start.column.builder && s.sending == Some(start.now + 86400) && s.transfers == []
  {
    hide StampOf;
    var shown := Step(start, host, Show);
    assert shown.column.runs == [Run(start.column.builder, start.now, false)] && shown.column.shown == None;
  }

  lemma AnsweredThen(s: Screen, host: int -> int, b: Builder, askedAt: int, result: Result)
    requires s.column.runs == [Run(b, askedAt, false)] && s.column.slot == Slot(false, Some(0))
    requires s.column.builder == b && s.sending.Some? && s.transfers == [] && result.Moment? && result.transferable
    ensures Step(Step(s, host, EngineReplies(0, result)), host, UseWakes).transfers
         == [Transfer(Shown(b, askedAt, result), b, s.sending.value)]
  {
    var replied := Step(s, host, EngineReplies(0, result));
    assert replied.column.slot.current && replied.column.shown == Some(Shown(b, askedAt, result));
  }

  lemma NotOfItsTime(host: int -> int, b: Builder, askedAt: int)
    requires b.base.Today? && b.zone.Fixed?
    ensures forall t: Transfer :: t.builder == b && t.shown.askedAt == askedAt && t.pressedAt == askedAt + 86400 ==>
      !Sent(host, t)
  {
    StampsAgreeIff(host, b, askedAt, askedAt + 86400);
    assert StampOf(host, b, askedAt + 86400) != StampOf(host, b, askedAt);
  }

  lemma AfterFour(s: Screen, host: int -> int, a: Event, b: Event, c: Event, d: Event)
    ensures After(s, host, [a, b, c, d]) == Step(Step(Step(Step(s, host, a), host, b), host, c), host, d)
  {
    hide Step;
    assert [a, b, c, d][1..] == [b, c, d] && [b, c, d][1..] == [c, d] && [c, d][1..] == [d] && [d][1..] == [];
    var (s1, s2) := (Step(s, host, a), Step(Step(s, host, a), host, b));
    assert After(s, host, [a, b, c, d]) == After(s1, host, [b, c, d]) == After(s2, host, [c, d])
        == After(Step(s2, host, c), host, [d]);
  }

  /** An answer is on screen, time goes by, Use is pressed: sent at once if the zone saw no midnight meanwhile; and if it
      saw one, nothing is sent, and the question asked again, as of the press. */
  lemma APressOverAMidnightAsksAgain(start: Screen, host: int -> int, result: Result, time: nat)
    requires Fresh(start) && start.column.builder.base.Today? && start.column.builder.zone.Fixed?
    requires result.Moment? && result.transferable
    ensures var (s, b, at) := (After(start, host, [Show, EngineReplies(0, result), Tick(time), PressUse]),
                               start.column.builder, start.now + time);
      if MidnightBetween(b.zone.bias, start.now, at) then
        && s.transfers == [] && s.sending == Some(at) && s.column.slot == Slot(false, Some(1))
        && s.column.runs == [Run(b, start.now, true), Run(b, at, false)] && s.column.builder == b
      else s.transfers == [Transfer(Shown(b, start.now, result), b, at)] && s.sending == None
  {
    AfterFour(start, host, Show, EngineReplies(0, result), Tick(time), PressUse);
    var b := start.column.builder;
    ShownFirst(start, host, result);
    var shown := Step(Step(Step(start, host, Show), host, EngineReplies(0, result)), host, Tick(time));
    StampsAgreeIff(host, b, start.now, shown.now);
    NoMidnightBack(b.zone.bias, start.now, shown.now);
    hide StampOf, MidnightBetween;
  }

  lemma NoMidnightBack(bias: int, earlier: int, later: int)
    requires earlier <= later
    ensures !MidnightBetween(bias, later, earlier)
  {
  }

  lemma ShownFirst(start: Screen, host: int -> int, result: Result)
    requires Fresh(start) && start.column.builder.base.Today? && result.Moment?
    ensures var (s, b) := (Step(Step(start, host, Show), host, EngineReplies(0, result)), start.column.builder);
      && s.column.runs == [Run(b, start.now, true)] && s.column.slot == CURRENT && s.column.builder == b
      && s.column.shown == Some(Shown(b, start.now, result)) && s.now == start.now && s.column.shownOnce
      && s.column.askedClock == StampOf(host, b, start.now) && s.sending == None && s.transfers == []
  {
    hide StampOf;
    var asked := Step(start, host, Show);
    assert asked.column.runs == [Run(start.column.builder, start.now, false)];
  }

  /** Then the answer as of the press is the one it takes. */
  lemma AndTakesTheNewAnswer(start: Screen, host: int -> int, result: Result, time: nat, later: Result)
    requires Fresh(start) && start.column.builder.base.Today? && start.column.builder.zone.Fixed?
    requires result.Moment? && result.transferable && later.Moment? && later.transferable
    requires MidnightBetween(start.column.builder.zone.bias, start.now, start.now + time)
    ensures var s := After(start, host, [Show, EngineReplies(0, result), Tick(time), PressUse]);
      Step(Step(s, host, EngineReplies(1, later)), host, UseWakes).transfers
      == [Transfer(Shown(start.column.builder, start.now + time, later), start.column.builder, start.now + time)]
  {
    APressOverAMidnightAsksAgain(start, host, result, time);
    hide After;
    var s := After(start, host, [Show, EngineReplies(0, result), Tick(time), PressUse]);
    var replied := Step(s, host, EngineReplies(1, later));
    assert replied.column.slot.current
        && replied.column.shown == Some(Shown(start.column.builder, start.now + time, later));
  }

  // --- How often a press sends ---

  /** The presses of a run that were not made while another was still waiting. */
  ghost function PressesHeard(s: Screen, host: int -> int, events: seq<Event>): set<nat> {
    set k | 0 <= k < |events| && events[k].PressUse? && After(s, host, events[..k]).sending.None?
  }

  function Pending(s: Screen): nat { if s.sending.Some? then 1 else 0 }

  /** Each event sends at most once, for a press just made or one that waited; a press while another waits is not
      heard. */
  lemma OneEventSends(s: Screen, host: int -> int, e: Event)
    ensures s.sending.Some? ==> Step(s, host, PressUse) == s
    ensures var n := Step(s, host, e);
      && s.transfers <= n.transfers
      && |n.transfers| + Pending(n) <= |s.transfers| + Pending(s) + if e.PressUse? && s.sending.None? then 1 else 0
  {
    hide AskAgain;
  }

  lemma {:induction false} AfterBoth(s: Screen, host: int -> int, events: seq<Event>, more: seq<Event>)
    ensures After(s, host, events + more) == After(After(s, host, events), host, more)
    decreases |events|
  {
    hide Step;
    if events == [] {
      assert events + more == more;
    } else {
      assert (events + more)[1..] == events[1..] + more;
      AfterBoth(Step(s, host, events[0]), host, events[1..], more);
    }
  }

  lemma OneMorePress(s: Screen, host: int -> int, init: seq<Event>, last: Event)
    ensures |PressesHeard(s, host, init + [last])|
         == |PressesHeard(s, host, init)| + if last.PressUse? && After(s, host, init).sending.None? then 1 else 0
  {
    hide After;
    var events := init + [last];
    assert forall k :: 0 <= k <= |init| ==> events[..k] == init[..k];
    assert init[..|init|] == init;
    assert PressesHeard(s, host, events) == PressesHeard(s, host, init)
      + if last.PressUse? && After(s, host, init).sending.None? then {|init|} else {};
  }

  /** One press, one transfer: over any run no more is sent than presses were heard. */
  lemma {:induction false} OnePressOneTransfer(s: Screen, host: int -> int, events: seq<Event>)
    ensures var n := After(s, host, events);
      && s.transfers <= n.transfers
      && |n.transfers| + Pending(n) <= |s.transfers| + Pending(s) + |PressesHeard(s, host, events)|
    decreases |events|
  {
    hide Step, Pending, PressesHeard;
    if events != [] {
      var (init, last) := (events[..|events| - 1], events[|events| - 1]);
      assert events == init + [last] && [last][1..] == [];
      OnePressOneTransfer(s, host, init);
      AfterBoth(s, host, init, [last]);
      assert After(After(s, host, init), host, [last]) == Step(After(s, host, init), host, last);
      OneEventSends(After(s, host, init), host, last);
      OneMorePress(s, host, init, last);
    }
  }

  // --- What becomes of an edit, and of a wait ---

  /** An edit, its quiet period, the engine's answer: the screen then shows the answer to what was edited, asked when the
      quiet period ended. From the edit on there is no current result, and no earlier run can bring one. */
  lemma AnEditIsAnswered(s: Screen, host: int -> int, b: Builder, result: Result, wait: nat)
    requires s.column.shownOnce && (b.base.Specific? ==> b.valid) && result.Moment?
    ensures var edited := Step(s, host, EditBuilder(b));
      && edited == s.(column := edited.column) && edited.column.builder == b && edited.column.slot == Slot(false, None)
      && edited.column.shown == s.column.shown && edited.column.runs == s.column.runs
      && edited.column.scheduled == s.column.scheduled + 1
    ensures var asked := Step(Step(Step(s, host, EditBuilder(b)), host, Tick(wait)), host, QuietEnds);
      && asked.now == s.now + wait && asked.column.runs == s.column.runs + [Run(b, s.now + wait, false)]
      && asked.column.slot == Slot(false, Some(|s.column.runs|)) && asked.column.scheduled == s.column.scheduled
      && var n := Step(asked, host, EngineReplies(|s.column.runs|, result));
      && n.column.slot == CURRENT && n.column.builder == b
      && n.column.shown == Some(Shown(b, s.now + wait, result)) && n.column.epoch == s.column.epoch
  {
    hide StampOf;
  }

  /** A base that cannot be read takes the result off the screen when the quiet period ends, and asks nothing. */
  lemma AnUnreadableEditClears(s: Screen, host: int -> int, b: Builder)
    requires s.column.shownOnce && b.base.Specific? && !b.valid
    ensures var n := Step(Step(s, host, EditBuilder(b)), host, QuietEnds);
      n.column.slot == CURRENT && n.column.shown == None && n.column.builder == b && n.column.runs == s.column.runs
      && n.column.epoch == s.column.epoch + 1
  {
    hide StampOf;
  }

  /** A preset that waits for its parameters takes the result off the screen at once, and no run on its way can bring
      one back. */
  lemma AWaitingPresetShowsNothing(s: Screen, host: int -> int, b: Builder, run: nat, result: Result)
    requires s.column.shownOnce
    ensures var n := Step(s, host, PresetWaits(b));
      && n.column.builder == b && n.column.shown == None && n.column.slot == CURRENT
      && n.column.epoch == s.column.epoch + 1
      && Step(n, host, EngineReplies(run, result)).column.shown == None
      && Step(n, host, EngineReplies(run, result)).column.slot == CURRENT
  {
    hide StampOf;
  }

  /** Before the column is first shown an edit only edits, and nothing asks. */
  lemma AHiddenColumnAsksNothing(s: Screen, host: int -> int, b: Builder)
    requires !s.column.shownOnce
    ensures Step(s, host, EditBuilder(b)).column == s.column.(builder := b) && Step(s, host, PresetWaits(b)) == s
  {
  }

  /** A refusal is shown in place of the result, and is current. */
  lemma ARefusalClears(s: Screen, host: int -> int, run: nat)
    requires Honest(s.column, host) && s.column.slot.live == Some(run)
    ensures var n := Step(s, host, EngineReplies(run, Refused));
      n.column.slot == CURRENT && n.column.shown == None && n.column.epoch == s.column.epoch + 1
      && n.column.builder == s.column.builder && n.transfers == s.transfers
  {
    hide StampOf;
  }

  /** A wait that runs out takes nothing and ends; the next press is heard. */
  lemma AWaitThatRunsOutTakesNothing(s: Screen, host: int -> int, k: nat)
    ensures Step(s, host, UseGivesUp) == s.(sending := None)
    ensures k < |s.copies| && s.copies[k].outcome.None? ==>
      var n := Step(s, host, CopyGivesUp(k));
      && n == s.(copies := n.copies) && |n.copies| == |s.copies| && n.copies[k].outcome == Some(Nothing)
      && forall j :: 0 <= j < |s.copies| && j != k ==> n.copies[j] == s.copies[j]
  {
  }

  // --- What a copy takes ---

  /** What stands in a row that was there when the rows were counted so. */
  predicate StandsInRow(c: Column, epoch: nat, row: nat, text: string) {
    && c.epoch == epoch && c.shown.Some? && c.shown.value.result.Moment?
    && row < |c.shown.value.result.rows| && c.shown.value.result.rows[row] == Some(text)
  }

  /** A copy that waited takes, once the result is current, exactly the text that then stands in its row - nothing, if
      the row has none or the rows were taken off since the press. */
  lemma AWaitingCopyTakesIff(s: Screen, host: int -> int, k: nat, text: string)
    requires k < |s.copies| && s.copies[k].outcome.None? && s.column.slot.current
    ensures var n := Step(s, host, CopyWakes(k));
      && |n.copies| == |s.copies| && n.copies[k].outcome.Some?
      && (StandsInRow(s.column, s.copies[k].epoch, s.copies[k].row, text) <==>
            s.column.shown.Some? && n.copies[k].outcome == Some(Took(text, s.column.shown.value, s.column.builder)))
      && (n.copies[k].outcome.value.Nothing? <==>
            forall t :: !StandsInRow(s.column, s.copies[k].epoch, s.copies[k].row, t))
  {
    if s.column.shown.Some? && s.column.shown.value.result.Moment? && s.copies[k].row < |s.column.shown.value.result.rows|
       && s.column.shown.value.result.rows[s.copies[k].row].Some? && s.copies[k].epoch == s.column.epoch {
      assert StandsInRow(s.column, s.copies[k].epoch, s.copies[k].row,
                         s.column.shown.value.result.rows[s.copies[k].row].value);
    }
  }

  /** The rows are taken off exactly when the count of it moves. */
  lemma TheRowsGoIff(s: Screen, host: int -> int, e: Event)
    ensures var n := Step(s, host, e).column;
      && (n.epoch == s.column.epoch || (n.epoch == s.column.epoch + 1 && n.shown.None?))
      && (n.epoch == s.column.epoch && s.column.shown.Some? ==> n.shown.Some?)
  {
    hide StampOf;
  }

  /** The events in which nothing but the clock, the presses and the screen itself moves. */
  predicate OnlyTime(e: Event) {
    !e.EditBuilder? && !e.QuietEnds? && !e.PresetWaits? && !e.EngineReplies?
  }

  /** For time alone a specific date is never asked again, nor any answer under whose stamp the clock still is. */
  lemma {:induction false} TimeAloneAsksNothing(s: Screen, host: int -> int, events: seq<Event>)
    requires s.column.shownOnce
    requires forall i :: 0 <= i < |events| ==> OnlyTime(events[i])
    requires s.column.builder.base.Specific?
             || forall t :: s.now <= t <= After(s, host, events).now ==>
                  StampOf(host, s.column.builder, t) == s.column.askedClock
    ensures After(s, host, events).column == s.column
    decreases |events|
  {
    hide StampOf;
    if events != [] {
      var n := Step(s, host, events[0]);
      NowOnlyGrows(n, host, events[1..]);
      assert n.column == s.column;
      TimeAloneAsksNothing(n, host, events[1..]);
    }
  }

  lemma {:induction false} NowOnlyGrows(s: Screen, host: int -> int, events: seq<Event>)
    ensures s.now <= After(s, host, events).now
    decreases |events|
  {
    hide AskAgain, Recompute;
    if events != [] {
      NowOnlyGrows(Step(s, host, events[0]), host, events[1..]);
    }
  }
}
