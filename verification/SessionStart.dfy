/** The session panel around its start moment (gui/ChronoMock.App/Session/SessionViewModel.cs): the zone, "now,
    shifted", and Start, which waits for the newest date - over every run of events. */
module SessionStarts {
  import opened AnswerSlots
  import opened MomentRequests
  import opened Wrappers

  datatype Press = Waiting | Done

  /** One start, with the field and the selection it went with. */
  datatype Start = Start(board: Board, zone: int)

  /** `pending` says that a Start gave up waiting; `amount` is what "now, shifted" reads its controls as. */
  datatype Session = Session(
    board: Board,
    zone: int,
    amount: Option<nat>,
    pending: bool,
    hasTarget: bool,
    idle: bool,
    closing: bool,
    presses: seq<Press>,
    starts: seq<Start>)
  {
    predicate CanStart() { idle && hasTarget && board.field.Some? && !board.failed && !pending }
  }

  datatype Event =
    | PutDate(value: Option<string>)
    | ChooseScenario(scenario: Option<nat>)
    | SetAmount(amount: Option<nat>)
    | ApplyRelative
    | SetZone(bias: int)
    | QuietEnds(run: nat)
    | Reply(run: nat, reply: MomentRequests.Reply)
    | SetTarget(present: bool)
    | PressStart
    | WakePress(press: nat)
    | LapsePress(press: nat)
    | SessionEnds
    | CloseWindow

  /** A changed field; the refusal of a Start that gave up is lifted when it turns current. */
  function With(s: Session, b: Board): Session { s.(board := b, pending := s.pending && !b.slot.current) }

  function TryStart(s: Session): Session {
    if s.CanStart() && !s.closing then s.(idle := false, starts := s.starts + [Start(s.board, s.zone)]) else s
  }

  /** A press waits until the field is current. */
  function Pressed(s: Session): Session {
    if s.board.slot.current then TryStart(s) else s.(presses := s.presses + [Waiting])
  }

  predicate Waits(s: Session, press: nat) { press < |s.presses| && s.presses[press].Waiting? }

  function Wake(s: Session, press: nat): Session {
    if Waits(s, press) && s.board.slot.current then TryStart(s.(presses := s.presses[press := Done])) else s
  }

  /** A wait that ran out refuses, and says so. */
  function Lapse(s: Session, press: nat): Session {
    if Waits(s, press) && !s.board.slot.current then s.(presses := s.presses[press := Done], pending := true) else s
  }

  /** One event of the dispatcher; one that cannot happen where things stand changes nothing. */
  function Step(s: Session, e: Event): Session {
    match e
    case PutDate(v) => With(s, Put(s.board, v))
    case ChooseScenario(c) => With(s, Choose(s.board, s.zone, c))
    case SetAmount(a) => s.(amount := a)
    case ApplyRelative => With(s, ApplyShift(s.board, s.zone, s.amount))
    case SetZone(z) => if z == s.zone then s else With(s.(zone := z), EnterZone(s.board, z, s.amount))
    case QuietEnds(r) => With(s, Elapse(s.board, s.zone, r))
    case Reply(r, reply) => With(s, Answer(s.board, r, reply))
    case SetTarget(p) => s.(hasTarget := p)
    case PressStart => Pressed(s)
    case WakePress(p) => Wake(s, p)
    case LapsePress(p) => Lapse(s, p)
    case SessionEnds => s.(idle := true)
    case CloseWindow => With(s, Abandon(s.board)).(closing := true)
  }

  function After(s: Session, events: seq<Event>): Session
    decreases |events|
  {
    if events == [] then s else After(Step(s, events[0]), events[1..])
  }

  /** A window as it opens. */
  predicate Open(s: Session) {
    && s.board.field.Some? && s.board == Opened(s.board.field.value)
    && !s.pending && !s.closing && s.presses == [] && s.starts == []
  }

  // --- What every event keeps ---

  predicate Kept(s: Session) { Sensible(s.board) && (s.pending ==> !s.board.slot.current) }

  lemma KeptStep(s: Session, e: Event)
    requires Kept(s)
    ensures Kept(Step(s, e))
  {
    hide Sensible, Put, Choose, ApplyShift, EnterZone, Elapse, Answer;
    match e
    case PutDate(v) => PutIsSensible(s.board, v);
    case ChooseScenario(c) => ChooseIsSensible(s.board, s.zone, c);
    case ApplyRelative => ShiftIsSensible(s.board, s.zone, s.amount);
    case SetZone(z) => ZoneIsSensible(s.board, z, s.amount);
    case QuietEnds(r) => ElapseIsSensible(s.board, s.zone, r);
    case Reply(r, reply) => AnswerIsSensible(s.board, r, reply);
    case CloseWindow => AbandonIsSensible(s.board);
    case _ =>
  }

  lemma {:induction false} KeptRun(s: Session, events: seq<Event>)
    requires Kept(s)
    ensures Kept(After(s, events))
    decreases |events|
  {
    if events != [] {
      KeptStep(s, events[0]);
      KeptRun(Step(s, events[0]), events[1..]);
    }
  }

  /** The field holds what the newest input came to: what was put there by hand, or the newest request's own
      date. */
  predicate HoldsTheNewest(b: Board) {
    match b.newest
    case None => b.source == ByHand
    case Some(i) =>
      && i + 1 == |b.requests| && b.requests[i].stage.Over? && b.requests[i].stage.reply.Gave?
      && b.field == b.requests[i].stage.reply.canonical
      && b.source == From(b.requests[i].question, b.requests[i].stage.zone)
  }

  /** The newest request is over and gave no date. */
  predicate NewestGaveNone(b: Board) {
    && b.newest.Some? && b.newest.value < |b.requests| && b.requests[b.newest.value].stage.Over?
    && b.requests[b.newest.value].stage.reply.GaveNone?
  }

  /** Whatever is asked, typed, answered late or never: a current field holds what the newest input came to,
      unless that came to nothing. */
  lemma ACurrentFieldHoldsTheNewest(start: Session, events: seq<Event>)
    requires Open(start)
    ensures var b := After(start, events).board; b.slot.current ==> HoldsTheNewest(b) || NewestGaveNone(b)
  {
    KeptRun(start, events);
  }

  predicate NewestIsRelative(b: Board) {
    b.newest.Some? && b.newest.value < |b.requests| && b.requests[b.newest.value].question.Relative?
  }

  /** Start goes with the date of the newest input; with the date from before it exactly where the newest was a
      "now, shifted" that gave none. */
  lemma AStartHasTheNewestDate(start: Session, events: seq<Event>, e: Event)
    requires Open(start)
    ensures var s := After(start, events);
      var n := Step(s, e);
      n.starts == s.starts
      || (&& n.starts == s.starts + [Start(s.board, s.zone)] && s.CanStart() && s.board.slot.current
          && (HoldsTheNewest(s.board) <==> !(NewestIsRelative(s.board) && NewestGaveNone(s.board))))
  {
    hide Put, Choose, ApplyShift, EnterZone, Elapse, Answer;
    KeptRun(start, events);
  }

  /** The window will start now: no session runs, there is a target and a readable date, and nothing is refused. */
  predicate MayStart(s: Session) {
    s.idle && s.hasTarget && s.board.field.Some? && !s.board.failed && !s.pending && !s.closing
  }

  /** A press on a current field, or the end of one's wait for a current field. */
  predicate PressComesDue(s: Session, e: Event) {
    && s.board.slot.current
    && (e.PressStart? || (e.WakePress? && e.press < |s.presses| && s.presses[e.press].Waiting?))
  }

  /** There is a start, with the field and the zone as they stand, exactly if a press comes due and the window may
      start; from then on a session runs, and until it ends there is no other. */
  lemma AStartIff(s: Session, e: Event)
    ensures var n := Step(s, e);
      && (n.starts == s.starts + [Start(s.board, s.zone)] <==> PressComesDue(s, e) && MayStart(s))
      && (n.starts != s.starts ==> n.starts == s.starts + [Start(s.board, s.zone)] && !n.idle && n.board == s.board)
      && (n.idle && !s.idle ==> e.SessionEnds?)
  {
    hide Put, Choose, ApplyShift, EnterZone, Elapse, Answer, Abandon;
  }

  /** A waiting press is woken on a current field, or gives up on one that is not. */
  predicate StopsWaiting(s: Session, e: Event, press: nat) {
    (e == WakePress(press) && s.board.slot.current) || (e == LapsePress(press) && !s.board.slot.current)
  }

  /** A press waits from when it finds the field not current until it stops waiting. */
  lemma APressWaitsIff(s: Session, e: Event, press: nat)
    ensures var n := Step(s, e);
      if e.PressStart? && !s.board.slot.current then n.presses == s.presses + [Waiting]
      else
        && |n.presses| == |s.presses|
        && (press < |s.presses| ==>
              (n.presses[press].Waiting? <==> s.presses[press].Waiting? && !StopsWaiting(s, e, press)))
  {
    hide Put, Choose, ApplyShift, EnterZone, Elapse, Answer, Abandon;
    if e.PressStart? || e.WakePress? || e.LapsePress? {
      hide With;
    } else {
      assert Step(s, e).presses == s.presses;
    }
  }

  /** What the panel is told it keeps: the zone, the amount and the target as last set, and a window that has begun to
      close is closing for good; nothing else moves them. */
  lemma ThePanelKeepsWhatItIsTold(s: Session, e: Event)
    ensures var n := Step(s, e);
      && n.zone == (if e.SetZone? then e.bias else s.zone)
      && n.amount == (if e.SetAmount? then e.amount else s.amount)
      && n.hasTarget == (if e.SetTarget? then e.present else s.hasTarget)
      && (n.closing <==> s.closing || e.CloseWindow?)
      && (e.SessionEnds? ==> n.idle)
  {
    hide Put, Choose, ApplyShift, EnterZone, Elapse, Answer, Abandon;
  }

  /** Giving up refuses any start until the field turns current. */
  lemma ARefusalIff(s: Session, e: Event)
    requires Kept(s)
    ensures Step(s, e).pending <==>
            (s.pending && !Step(s, e).board.slot.current)
            || (e.LapsePress? && e.press < |s.presses| && s.presses[e.press].Waiting? && !s.board.slot.current)
  {
    hide Sensible, Put, Choose, ApplyShift, EnterZone, Elapse, Answer, Abandon;
  }

  /** A scenario is chosen, Start is pressed, the answer comes, the press wakes: one start, with the scenario's date. */
  lemma AStartThatWaitedGoes(start: Session, scenario: nat, date: string)
    requires Open(start) && start.idle && start.hasTarget
    ensures var s := After(start, [ChooseScenario(Some(scenario)), PressStart, Reply(0, Gave(Some(date))),
                                   WakePress(0)]);
      && |s.starts| == 1 && s.starts[0].board.field == Some(date) && s.starts[0].zone == start.zone
      && s.starts[0].board.source == From(Scenario(scenario), start.zone) && !s.idle && s.presses == [Done]
  {
    AfterFour(start, ChooseScenario(Some(scenario)), PressStart, Reply(0, Gave(Some(date))), WakePress(0));
    var chosen := Step(start, ChooseScenario(Some(scenario)));
    assert chosen.board.requests == [Request(Scenario(scenario), Asked(start.zone))];
    var pressed := Step(chosen, PressStart);
    assert pressed.presses == [Waiting] && pressed.board == chosen.board;
    var replied := Step(pressed, Reply(0, Gave(Some(date))));
    assert replied.board.slot.current && replied.board.field == Some(date);
  }

  // --- A date put there by hand ---

  /** The events that neither put a date in the field nor ask for one. */
  predicate Indirect(e: Event) {
    !e.PutDate? && !e.ApplyRelative? && !(e.ChooseScenario? && e.scenario.Some?)
  }

  predicate HeldByHand(b: Board, value: Option<string>) {
    b.field == value && b.selected == None && b.newest == None && b.slot == CURRENT
  }

  lemma HeldByHandStep(s: Session, value: Option<string>, e: Event)
    requires HeldByHand(s.board, value) && Indirect(e)
    ensures HeldByHand(Step(s, e).board, value)
  {
    if e.SetZone? || e.QuietEnds? || e.Reply? || e.ChooseScenario? || e.CloseWindow? {
      hide TryStart, Wake, Lapse, Pressed;
    } else {
      hide HeldByHand;
      assert Step(s, e).board == s.board;
    }
  }

  /** A date put in the field by hand stays: no answer still on its way overwrites it, whatever zone is chosen,
      whoever presses Start. */
  lemma {:induction false} ADatePutByHandStays(s: Session, value: Option<string>, events: seq<Event>)
    requires HeldByHand(s.board, value)
    requires forall i :: 0 <= i < |events| ==> Indirect(events[i])
    ensures HeldByHand(After(s, events).board, value)
    decreases |events|
  {
    hide Step, Indirect, HeldByHand;
    if events != [] {
      HeldByHandStep(s, value, events[0]);
      ADatePutByHandStays(Step(s, events[0]), value, events[1..]);
    }
  }

  lemma PuttingHolds(s: Session, value: Option<string>)
    requires Kept(s)
    ensures HeldByHand(Step(s, PutDate(value)).board, value)
  {
  }

  lemma {:induction false} AfterBoth(s: Session, events: seq<Event>, more: seq<Event>)
    ensures After(s, events + more) == After(After(s, events), more)
    decreases |events|
  {
    hide Step;
    if events == [] {
      assert events + more == more;
    } else {
      assert (events + more)[1..] == events[1..] + more;
      AfterBoth(Step(s, events[0]), events[1..], more);
    }
  }

  /** A date put there by hand at any point of any run is there for as long as nothing else is put there or asked. */
  lemma ADatePutByHandIsKept(start: Session, before: seq<Event>, value: Option<string>, after: seq<Event>)
    requires Open(start) && forall i :: 0 <= i < |after| ==> Indirect(after[i])
    ensures HeldByHand(After(start, before + [PutDate(value)] + after).board, value)
  {
    hide Step, Open, Kept, HeldByHand, Indirect;
    OpenIsKept(start);
    KeptRun(start, before);
    var s := After(start, before);
    PuttingHolds(s, value);
    AfterBoth(start, before + [PutDate(value)], after);
    AfterBoth(start, before, [PutDate(value)]);
    assert [PutDate(value)][1..] == [];
    assert After(s, [PutDate(value)]) == Step(s, PutDate(value));
    ADatePutByHandStays(Step(s, PutDate(value)), value, after);
  }

  lemma OpenIsKept(s: Session)
    requires Open(s)
    ensures Kept(s)
  {
  }

  /** A readable date put there by hand lifts the refusal a failed scenario left, exactly if a scenario is still
      selected: one deselected after it failed goes on refusing. */
  lemma ADateByHandLiftsTheRefusalIff(s: Session, date: string)
    requires Kept(s) && s.idle && s.hasTarget
    ensures Step(s, PutDate(Some(date))).CanStart() <==> !s.board.failed || s.board.selected.Some?
  {
  }

  lemma AfterFour(s: Session, a: Event, b: Event, c: Event, d: Event)
    ensures After(s, [a, b, c, d]) == Step(Step(Step(Step(s, a), b), c), d)
  {
    hide Step;
    assert [a, b, c, d][1..] == [b, c, d] && [b, c, d][1..] == [c, d] && [c, d][1..] == [d] && [d][1..] == [];
    assert After(s, [a, b, c, d]) == After(Step(s, a), [b, c, d]) == After(Step(Step(s, a), b), [c, d])
        == After(Step(Step(Step(s, a), b), c), [d]);
  }

  /** A scenario fails, is deselected, and a date is typed: Start goes on refusing it. */
  lemma ADeselectedFailureGoesOnRefusing(start: Session, scenario: nat, date: string)
    requires Open(start) && start.idle && start.hasTarget
    ensures var s := After(start, [ChooseScenario(Some(scenario)), Reply(0, GaveNone), ChooseScenario(None),
                                   PutDate(Some(date))]);
      s.board.field == Some(date) && s.board.source == ByHand && s.board.slot.current && s.board.selected == None
      && !s.CanStart()
  {
    AfterFour(start, ChooseScenario(Some(scenario)), Reply(0, GaveNone), ChooseScenario(None), PutDate(Some(date)));
    var asked := Step(start, ChooseScenario(Some(scenario)));
    assert asked.board.requests[0] == Request(Scenario(scenario), Asked(start.zone));
    var failed := Step(asked, Reply(0, GaveNone));
    assert failed.board.failed && failed.board.selected == Some(scenario);
    var deselected := Step(failed, ChooseScenario(None));
    assert deselected.board.failed && deselected.board.selected == None;
  }

  // --- What the selection claims ---

  /** While a scenario is selected, the newest request is its own in the zone shown, or a "now, shifted" that has
      not filled the field. */
  predicate Claims(b: Board, zone: int) {
    b.selected.Some? ==>
      && b.newest.Some? && b.newest.value < |b.requests|
      && var r := b.requests[b.newest.value];
      && (r.question.Relative? && b.slot.current ==> r.stage.Over? && r.stage.reply.GaveNone?)
      && (r.question.Scenario? ==> r.question.id == b.selected.value && (!r.stage.Quiet? ==> r.stage.zone == zone))
  }

  lemma AnswersKeepClaims(b: Board, zone: int, run: nat, reply: MomentRequests.Reply)
    requires Sensible(b) && Claims(b, zone)
    ensures Claims(Answer(b, run, reply), zone)
  {
  }

  lemma ClaimsStep(s: Session, e: Event)
    requires Kept(s) && Claims(s.board, s.zone)
    ensures Claims(Step(s, e).board, Step(s, e).zone)
  {
    hide Answer;
    match e
    case Reply(r, reply) => AnswersKeepClaims(s.board, s.zone, r, reply);
    case _ =>
  }

  lemma {:induction false} ClaimsRun(s: Session, events: seq<Event>)
    requires Kept(s) && Claims(s.board, s.zone)
    ensures Claims(After(s, events).board, After(s, events).zone)
    decreases |events|
  {
    hide Kept, Claims, Step;
    if events != [] {
      ClaimsStep(s, events[0]);
      KeptStep(s, events[0]);
      ClaimsRun(Step(s, events[0]), events[1..]);
    }
  }

  /** A selected scenario that did not fail has its own date, of the zone shown, in a current field - unless a
      "now, shifted" asked after it gave none. */
  lemma TheSelectionIsTrue(start: Session, events: seq<Event>)
    requires Open(start)
    ensures var s := After(start, events);
      s.board.slot.current && s.board.selected.Some? && !s.board.failed ==>
        || s.board.source == From(Scenario(s.board.selected.value), s.zone)
        || (NewestIsRelative(s.board) && NewestGaveNone(s.board))
  {
    hide Put, Choose, ApplyShift, EnterZone, Elapse, Answer;
    KeptRun(start, events);
    ClaimsRun(start, events);
  }

  /** And then it need not: a scenario superseded before its date came is still selected when Start goes with the
      date from before it. */
  lemma AChoiceOvertakenStartsWithTheOldDate(start: Session, scenario: nat)
    requires Open(start) && start.idle && start.hasTarget && start.amount.Some?
    ensures var s := After(start, [ChooseScenario(Some(scenario)), ApplyRelative, Reply(1, GaveNone), PressStart]);
      && |s.starts| == 1
      && s.starts[0].board.selected == Some(scenario)
      && s.starts[0].board.field == start.board.field && s.starts[0].board.source == ByHand
  {
    var chosen := Step(start, ChooseScenario(Some(scenario)));
    var shifted := Step(chosen, ApplyRelative);
    assert shifted.board.requests[1] == Request(Relative(start.amount.value), Asked(start.zone));
    var failed := Step(shifted, Reply(1, GaveNone));
    assert failed.board.slot.current && failed.CanStart();
    var gone := Step(failed, PressStart);
    assert After(gone, []) == gone;
    hide Step;
    assert After(failed, [PressStart]) == gone;
    assert After(shifted, [Reply(1, GaveNone), PressStart]) == gone by {
      assert [Reply(1, GaveNone), PressStart][1..] == [PressStart];
    }
    assert After(chosen, [ApplyRelative, Reply(1, GaveNone), PressStart]) == gone by {
      assert [ApplyRelative, Reply(1, GaveNone), PressStart][1..] == [Reply(1, GaveNone), PressStart];
    }
    assert [ChooseScenario(Some(scenario)), ApplyRelative, Reply(1, GaveNone), PressStart][1..]
        == [ApplyRelative, Reply(1, GaveNone), PressStart];
  }

  // --- A new zone ---

  /** No question is out that was asked in another zone. */
  predicate AskedInZone(b: Board, zone: int) {
    forall i :: 0 <= i < |b.requests| && Live(b, i) && b.requests[i].stage.Asked? ==> b.requests[i].stage.zone == zone
  }

  /** A new zone leaves no question of another on its way, exactly if a scenario is selected, or what is on its way
      is a "now, shifted" whose controls can still be read, or has not asked yet, or was asked in that very zone. */
  lemma AZoneChangeAsksAgainIff(s: Session, zone: int, run: nat)
    requires Kept(s) && zone != s.zone && Live(s.board, run)
    ensures var r := s.board.requests[run];
      AskedInZone(Step(s, SetZone(zone)).board, zone) <==>
        || s.board.selected.Some? || (r.question.Relative? && s.amount.Some?)
        || r.stage.Quiet? || r.stage.zone == zone
  {
    var (n, r) := (Step(s, SetZone(zone)).board, s.board.requests[run]);
    if s.board.selected.None? && !(r.question.Relative? && s.amount.Some?) {
      assert n == s.board;
      if AskedInZone(n, zone) {
        assert Live(n, run) && n.requests[run] == r;
      }
    }
  }

  /** A scenario is chosen and deselected, the zone changes, the answer comes: the field holds the wall clock of the
      old zone under the new one. */
  lemma AnAnswerOfTheOldZoneFills(start: Session, scenario: nat, zone: int, date: Option<string>)
    requires Open(start) && zone != start.zone
    ensures var s := After(start, [ChooseScenario(Some(scenario)), ChooseScenario(None), SetZone(zone),
                                   Reply(0, Gave(date))]);
      s.board.slot.current && s.board.field == date && s.zone == zone
      && s.board.source == From(Scenario(scenario), start.zone)
  {
    AfterFour(start, ChooseScenario(Some(scenario)), ChooseScenario(None), SetZone(zone), Reply(0, Gave(date)));
    var asked := Step(start, ChooseScenario(Some(scenario)));
    assert asked.board.requests[0] == Request(Scenario(scenario), Asked(start.zone));
    var deselected := Step(asked, ChooseScenario(None));
    assert deselected.board.requests[0] == asked.board.requests[0];
  }

  /** It asks the very question that was on its way, exactly if that was not a "now, shifted" made while a
      scenario was selected, or one whose amount has been edited to another since. */
  lemma AZoneChangeKeepsTheQuestionIff(s: Session, zone: int, run: nat)
    requires Kept(s) && Claims(s.board, s.zone) && zone != s.zone && Live(s.board, run)
    ensures var n := Step(s, SetZone(zone)).board;
      n.newest.Some? && n.newest.value < |n.requests|
      && (n.requests[n.newest.value].question == s.board.requests[run].question <==>
            match s.board.requests[run].question
            case Scenario(_) => true
            case Relative(shift) => s.board.selected.None? && (s.amount.None? || s.amount.value == shift))
  {
  }

  lemma AfterThree(s: Session, a: Event, b: Event, c: Event)
    ensures After(s, [a, b, c]) == Step(Step(Step(s, a), b), c)
  {
    hide Step;
    assert [a, b, c][1..] == [b, c] && [b, c][1..] == [c] && [c][1..] == [];
    assert After(s, [a, b, c]) == After(Step(s, a), [b, c]) == After(Step(Step(s, a), b), [c]);
  }

  /** A scenario, then a "now, shifted", then another zone: what is asked again is the scenario. */
  lemma AZoneChangeAsksTheOlderQuestion(start: Session, scenario: nat, zone: int)
    requires Open(start) && zone != start.zone && start.amount.Some?
    ensures var asked := After(start, [ChooseScenario(Some(scenario)), ApplyRelative]);
      Live(asked.board, 1) && asked.board.requests[1].question == Relative(start.amount.value)
    ensures var s := After(start, [ChooseScenario(Some(scenario)), ApplyRelative, SetZone(zone)]);
      Live(s.board, 2) && s.board.requests[2].question == Scenario(scenario)
  {
    var (chosen, rest) := (Step(start, ChooseScenario(Some(scenario))), [ApplyRelative]);
    AfterThree(start, ChooseScenario(Some(scenario)), ApplyRelative, SetZone(zone));
    assert [ChooseScenario(Some(scenario)), ApplyRelative][1..] == rest && rest[1..] == [];
    assert After(start, [ChooseScenario(Some(scenario)), ApplyRelative]) == After(chosen, rest)
        == Step(chosen, ApplyRelative);
  }

  /** A choice made over an unanswered one asks when its quiet period ends, in the zone as it is then, and the answer
      fills the field; nothing was asked for it before. */
  lemma AQuietChoiceIsAsked(s: Session, run: nat, date: Option<string>)
    requires Kept(s) && Live(s.board, run) && s.board.requests[run].stage.Quiet?
    ensures var n := Step(s, QuietEnds(run));
      && Step(s, Reply(run, Gave(date))).board == s.board
      && |n.board.requests| == |s.board.requests|
      && n.board.requests[run] == Request(s.board.requests[run].question, Asked(s.zone))
      && var t := Step(n, Reply(run, Gave(date)));
      t.board.slot.current && t.board.field == date
      && t.board.source == From(s.board.requests[run].question, s.zone)
  {
  }

  // --- A run of choices ---

  function AskedOf(requests: seq<Request>): nat {
    if requests == [] then 0
    else AskedOf(requests[..|requests| - 1]) + if requests[|requests| - 1].stage.Quiet? then 0 else 1
  }

  lemma OneMore(requests: seq<Request>, r: Request)
    ensures AskedOf(requests + [r]) == AskedOf(requests) + if r.stage.Quiet? then 0 else 1
  {
    assert (requests + [r])[..|requests|] == requests;
  }

  predicate IsChoice(e: Event) { e.ChooseScenario? && e.scenario.Some? }

  /** The newest request is the live one, of the scenario selected. */
  predicate AsksForTheSelected(b: Board) {
    && b.selected.Some? && b.newest == Some(|b.requests| - 1) && Live(b, |b.requests| - 1)
    && b.requests[|b.requests| - 1].question == Scenario(b.selected.value)
  }

  lemma AChoiceAsks(s: Session, e: Event)
    requires IsChoice(e)
    ensures var n := Step(s, e);
      n.board == s.board
      || (&& AsksForTheSelected(n.board) && !n.board.slot.current
          && AskedOf(n.board.requests) == AskedOf(s.board.requests) + if s.board.slot.current then 1 else 0)
  {
    var n := Step(s, e);
    if n.board != s.board {
      OneMore(s.board.requests, n.board.requests[|s.board.requests|]);
    }
  }

  /** Arrowing down the list asks once at most, for the row it started from, until the quiet period ends; then
      for the row it stopped on. */
  lemma {:induction false} ARunOfChoicesAsksOnce(s: Session, events: seq<Event>)
    requires forall i :: 0 <= i < |events| ==> IsChoice(events[i])
    ensures var n := After(s, events);
      && AskedOf(n.board.requests) <= AskedOf(s.board.requests) + (if s.board.slot.current then 1 else 0)
      && (n.board == s.board || AsksForTheSelected(n.board))
    decreases |events|
  {
    hide Step, IsChoice, AsksForTheSelected, AskedOf;
    if events != [] {
      AChoiceAsks(s, events[0]);
      ARunOfChoicesAsksOnce(Step(s, events[0]), events[1..]);
    }
  }
}
