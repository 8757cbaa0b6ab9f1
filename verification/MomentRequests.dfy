/** Everything that fills the session's start moment by asking the engine, beside what the tester puts there by
    hand (gui/ChronoMock.App/Session/MomentRequests.cs and the selection in SessionViewModel.cs), one event of
    the dispatcher after another, with an engine that answers in any order. */
module MomentRequests {
  import opened AnswerSlots
  import opened Wrappers

  datatype Question = Scenario(id: nat) | Relative(shift: nat)

  /** What the engine says: a moment, unreadable to the field where `canonical` is none, or no moment at all. */
  datatype Reply = Gave(canonical: Option<string>) | GaveNone

  /** A choice over an unanswered one first waits out a quiet period; the zone is read when it asks. */
  datatype Stage = Quiet | Asked(zone: int) | Over(zone: int, reply: Reply)

  datatype Request = Request(question: Question, stage: Stage)

  /** Where the field's value came from. */
  datatype Source = ByHand | From(question: Question, zone: int)

  /** `newest` is the request asked last, or none where something else was put in the field since; `selected`
      is the scenario the list shows as chosen, and `failed` that the chosen one gave no date. */
  datatype Board = Board(
    slot: Slot,
    requests: seq<Request>,
    newest: Option<nat>,
    field: Option<string>,
    source: Source,
    selected: Option<nat>,
    failed: bool,
    relativeAsked: bool)

  /** The field as the window opens with it. */
  function Opened(shipped: string): Board {
    Board(CURRENT, [], None, Some(shipped), ByHand, None, false, false)
  }

  /** A new request takes the place of whatever was being computed. */
  function Ask(b: Board, question: Question, stage: Stage): Board {
    b.(slot := b.slot.Ask().Begin(|b.requests|),
       requests := b.requests + [Request(question, stage)],
       newest := Some(|b.requests|),
       relativeAsked := question.Relative?)
  }

  function ApplyScenario(b: Board, zone: int, scenario: nat): Board {
    Ask(b.(failed := false), Scenario(scenario), if b.slot.current then Asked(zone) else Quiet)
  }

  /** "Now, shifted"; an amount that cannot be read asks nothing. */
  function ApplyShift(b: Board, zone: int, amount: Option<nat>): Board {
    if amount.None? then b else Ask(b, Relative(amount.value), Asked(zone))
  }

  /** The scenario no longer explains the field; a selection already gone takes no complaint with it. */
  function ClearSelection(b: Board): Board {
    if b.selected.None? then b else b.(selected := None, failed := false)
  }

  /** Something other than an answer fills the field: it is an answer of its own. */
  function Put(b: Board, value: Option<string>): Board {
    ClearSelection(b.(field := value, source := ByHand, newest := None, slot := b.slot.Settle()))
  }

  function Choose(b: Board, zone: int, scenario: Option<nat>): Board {
    if scenario == b.selected then b
    else if scenario.None? then b.(selected := None)
    else ApplyScenario(b.(selected := scenario), zone, scenario.value)
  }

  /** The zone is part of every question, so a new zone asks again. */
  function EnterZone(b: Board, zone: int, amount: Option<nat>): Board {
    if b.selected.Some? then ApplyScenario(b, zone, b.selected.value)
    else if b.relativeAsked && !b.slot.current then ApplyShift(b, zone, amount)
    else b
  }

  predicate Live(b: Board, run: nat) { b.slot.live == Some(run) && run < |b.requests| }

  /** The quiet period of a choice ends with nothing newer asked: now it asks. */
  function Elapse(b: Board, zone: int, run: nat): Board {
    if Live(b, run) && b.requests[run].stage.Quiet? then
      b.(requests := b.requests[run := Request(b.requests[run].question, Asked(zone))])
    else b
  }

  /** What an accepted answer puts on screen: the moment, or why there is none. */
  function Show(b: Board, question: Question, zone: int, reply: Reply): Board {
    match reply
    case GaveNone => if question.Scenario? then b.(failed := true) else b
    case Gave(c) =>
      var filled := b.(field := c, source := From(question, zone));
      if question.Scenario? then filled else ClearSelection(filled)
  }

  /** An answer comes: refused unless its run is the live one. */
  function Answer(b: Board, run: nat, reply: Reply): Board {
    if run < |b.requests| && b.requests[run].stage.Asked? then
      var q, z := b.requests[run].question, b.requests[run].stage.zone;
      var told := b.(requests := b.requests[run := Request(q, Over(z, reply))], slot := b.slot.Answer(run));
      if b.slot.live == Some(run) then Show(told, q, z, reply) else told
    else b
  }

  function Abandon(b: Board): Board { b.(slot := b.slot.Abandon()) }

  // --- What every event keeps ---

  /** The newest request is outstanding, or over with the field as it left it. */
  predicate Newest(b: Board) {
    match b.newest
    case None => b.slot.current && b.source == ByHand
    case Some(i) => i < |b.requests| && i == |b.requests| - 1 && (if b.slot.current then Left(b, i) else Out(b, i))
  }

  predicate Left(b: Board, i: nat)
    requires i < |b.requests|
  {
    var r := b.requests[i];
    && r.stage.Over?
    && (r.stage.reply.Gave? ==> b.field == r.stage.reply.canonical && b.source == From(r.question, r.stage.zone))
    && (r.stage.reply.GaveNone? && r.question.Scenario? ==> b.failed)
  }

  predicate Out(b: Board, i: nat)
    requires i < |b.requests|
  {
    && (b.requests[i].question.Relative? <==> b.relativeAsked)
    && (b.slot.live == Some(i) ==> !b.requests[i].stage.Over?)
    && (b.slot.live == Some(i) || b.slot.live == None)
  }

  predicate Sensible(b: Board) {
    && Newest(b)
    && (b.slot.current ==> b.slot.live == None)
  }

  lemma PutIsSensible(b: Board, value: Option<string>)
    ensures Sensible(Put(b, value))
  {
  }

  lemma ShiftIsSensible(b: Board, zone: int, amount: Option<nat>)
    requires Sensible(b)
    ensures Sensible(ApplyShift(b, zone, amount))
  {
  }

  lemma ChooseIsSensible(b: Board, zone: int, scenario: Option<nat>)
    requires Sensible(b)
    ensures Sensible(Choose(b, zone, scenario))
  {
  }

  lemma ZoneIsSensible(b: Board, zone: int, amount: Option<nat>)
    requires Sensible(b)
    ensures Sensible(EnterZone(b, zone, amount))
  {
  }

  lemma ElapseIsSensible(b: Board, zone: int, run: nat)
    requires Sensible(b)
    ensures Sensible(Elapse(b, zone, run))
  {
  }

  lemma AnswerIsSensible(b: Board, run: nat, reply: Reply)
    requires Sensible(b)
    ensures Sensible(Answer(b, run, reply))
  {
  }

  lemma AbandonIsSensible(b: Board)
    requires Sensible(b)
    ensures Sensible(Abandon(b))
  {
  }
}
