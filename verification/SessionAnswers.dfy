/** The session's field on the protocol itself: every event of the panel makes whole calls of LatestAnswer
    (gui/ChronoMock.App/Session/MomentRequests.cs), and the slot the panel is modelled with is, over every run, what
    those calls leave of the full state with its cancellation sources. */
module SessionAnswers {
  import opened AnswerSlots
  import L = LatestAnswers
  import M = MomentRequests
  import opened SessionStarts
  import opened Wrappers

  /** The full state is the board's: one run a request, and the run of every request not yet over is in the slot or
      cancelled. */
  ghost predicate Backs(a: L.Answer, b: M.Board) {
    && Tidy(a) && SlotOf(a) == b.slot && |a.runs| == |b.requests|
    && forall k :: 0 <= k < |a.runs| ==> b.requests[k].stage.Over? || a.running == Some(k) || a.runs[k].cancelled
  }

  // --- The calls ---

  ghost function Asked(a: L.Answer): (b: L.Answer)
    requires Tidy(a)
    ensures Tidy(b) && SlotOf(b) == SlotOf(a).Ask() && |b.runs| == |a.runs|
    ensures forall k :: 0 <= k < |a.runs| ==> b.runs[k].cancelled == (a.runs[k].cancelled || a.running == Some(k))
  {
    AskIsAsk(a);
    FinishPuts(L.Ask(a).0, L.Ask(a).1);
    L.Finish(L.Ask(a).0, L.Ask(a).1)
  }

  ghost function Begun(a: L.Answer): (b: L.Answer)
    requires Tidy(a) && !a.IsCurrent()
    ensures Tidy(b) && SlotOf(b) == SlotOf(a).Begin(|a.runs|) && |b.runs| == |a.runs| + 1
    ensures forall k :: 0 <= k < |a.runs| ==> b.runs[k].cancelled == (a.runs[k].cancelled || a.running == Some(k))
  {
    BeginIsBegin(a);
    FinishPuts(L.Begin(a).0, L.Begin(a).1);
    L.Finish(L.Begin(a).0, L.Begin(a).1)
  }

  ghost function Settled(a: L.Answer): (b: L.Answer)
    requires Tidy(a)
    ensures Tidy(b) && SlotOf(b) == SlotOf(a).Settle() && |b.runs| == |a.runs|
    ensures forall k :: 0 <= k < |a.runs| ==> b.runs[k].cancelled == (a.runs[k].cancelled || a.running == Some(k))
  {
    SettleIsSettle(a);
    FinishPuts(L.Settle(a).0, L.Settle(a).1);
    L.Finish(L.Settle(a).0, L.Settle(a).1)
  }

  ghost function Abandoned(a: L.Answer): (b: L.Answer)
    requires Tidy(a)
    ensures Tidy(b) && SlotOf(b) == SlotOf(a).Abandon() && |b.runs| == |a.runs|
    ensures forall k :: 0 <= k < |a.runs| ==> b.runs[k].cancelled == (a.runs[k].cancelled || a.running == Some(k))
  {
    AbandonIsAbandon(a);
    FinishPuts(L.Abandon(a).0, L.Abandon(a).1);
    L.Finish(L.Abandon(a).0, L.Abandon(a).1)
  }

  /** A run that ends: accepted if it may be, and let go. */
  ghost function Ended(a: L.Answer, k: nat): (b: L.Answer)
    requires Tidy(a) && k < |a.runs| && (a.running == Some(k) || a.runs[k].cancelled)
    ensures Tidy(b) && SlotOf(b) == SlotOf(a).Answer(k) && |b.runs| == |a.runs|
    ensures forall j :: 0 <= j < |a.runs| ==> b.runs[j].cancelled == a.runs[j].cancelled
    ensures b.running == if a.running == Some(k) then None else a.running
  {
    var c := L.Accept(a, k);
    AnswerIsAnswer(a, k);
    FinishDisposes(L.Release(c, k).0, L.Release(c, k).1);
    L.Finish(L.Release(c, k).0, L.Release(c, k).1)
  }

  /** Whether an event asks the engine anew. */
  predicate AsksAnew(s: Session, e: Event) {
    match e
    case ChooseScenario(c) => c.Some? && c != s.board.selected
    case ApplyRelative => s.amount.Some?
    case SetZone(z) =>
      z != s.zone
      && (s.board.selected.Some? || (s.board.relativeAsked && !s.board.slot.current && s.amount.Some?))
    case _ => false
  }

  /** What an event of the panel does to the full state, call by call. */
  ghost function Calls(a: L.Answer, s: Session, e: Event): L.Answer
    requires Backs(a, s.board)
  {
    if AsksAnew(s, e) then Begun(Asked(a))
    else match e
      case PutDate(_) => Settled(a)
      case Reply(r, _) => if r < |a.runs| && s.board.requests[r].stage.Asked? then Ended(a, r) else a
      case CloseWindow => Abandoned(a)
      case _ => a
  }

  lemma AskingIsBacked(a: L.Answer, b: M.Board, question: M.Question, stage: M.Stage)
    requires Backs(a, b)
    ensures Backs(Begun(Asked(a)), M.Ask(b, question, stage))
  {
    hide Tidy;
  }

  lemma EndingIsBacked(a: L.Answer, b: M.Board, run: nat, reply: M.Reply)
    requires Backs(a, b) && run < |a.runs| && b.requests[run].stage.Asked?
    ensures Backs(Ended(a, run), M.Answer(b, run, reply))
  {
    hide Tidy;
  }

  lemma SameSlotIsBacked(a: L.Answer, b: M.Board, c: M.Board)
    requires Backs(a, b) && b.slot == c.slot && b.requests == c.requests
    ensures Backs(a, c)
  {
  }

  lemma AskingAnew(s: Session, e: Event) returns (newest: M.Request)
    requires AsksAnew(s, e)
    ensures var asked := M.Ask(s.board, newest.question, newest.stage);
      Step(s, e).board.slot == asked.slot && Step(s, e).board.requests == asked.requests
  {
    var stage := if s.board.slot.current then M.Asked(s.zone) else M.Quiet;
    match e
    case ChooseScenario(c) =>
      newest := M.Request(M.Scenario(c.value), stage);
    case ApplyRelative =>
      newest := M.Request(M.Relative(s.amount.value), M.Asked(s.zone));
    case SetZone(z) =>
      newest := if s.board.selected.Some?
        then M.Request(M.Scenario(s.board.selected.value), if s.board.slot.current then M.Asked(z) else M.Quiet)
        else M.Request(M.Relative(s.amount.value), M.Asked(z));
  }

  lemma StepIsBacked(a: L.Answer, s: Session, e: Event)
    requires Backs(a, s.board)
    ensures Backs(Calls(a, s, e), Step(s, e).board)
  {
    if AsksAnew(s, e) {
      hide Tidy, Backs, Step, AsksAnew, M.Ask;
      var newest := AskingAnew(s, e);
      AskingIsBacked(a, s.board, newest.question, newest.stage);
      SameSlotIsBacked(Begun(Asked(a)), M.Ask(s.board, newest.question, newest.stage), Step(s, e).board);
    } else {
      OtherStepIsBacked(a, s, e);
    }
  }

  lemma OtherStepIsBacked(a: L.Answer, s: Session, e: Event)
    requires Backs(a, s.board) && !AsksAnew(s, e)
    ensures Backs(Calls(a, s, e), Step(s, e).board)
  {
    hide Tidy, M.Ask;
    match e
    case Reply(r, reply) =>
      if r < |a.runs| && s.board.requests[r].stage.Asked? {
        EndingIsBacked(a, s.board, r, reply);
      } else {
        assert Step(s, e).board == s.board;
      }
    case _ =>
  }

  ghost function CallsOf(a: L.Answer, s: Session, events: seq<Event>): (b: L.Answer)
    requires Backs(a, s.board)
    ensures Backs(b, After(s, events).board)
    decreases |events|
  {
    if events == [] then a
    else
      StepIsBacked(a, s, events[0]);
      CallsOf(Calls(a, s, events[0]), Step(s, events[0]), events[1..])
  }

  /** Over every run from an opened panel: the engine's run for a question is in the slot exactly while its answer
      would still fill the field; one that is not yet over and no longer may was cancelled; and every run but the one
      in the slot has let go of its source, once. */
  lemma AQuestionNoLongerAskedIsStopped(start: Session, events: seq<Event>, k: nat)
    requires Open(start) && k < |After(start, events).board.requests|
    ensures Backs(L.NEW_ANSWER, start.board)
    ensures var (a, b) := (CallsOf(L.NEW_ANSWER, start, events), After(start, events).board);
      && |a.runs| == |b.requests| && a.IsCurrent() == b.slot.current
      && (a.running == Some(k) <==> b.slot.live == Some(k))
      && (b.slot.live != Some(k) && !b.requests[k].stage.Over? ==> a.runs[k].cancelled)
      && a.runs[k].disposals == if b.slot.live == Some(k) then 0 else 1
  {
    var a := CallsOf(L.NEW_ANSWER, start, events);
    assert AnswerSlots.Settled(a, k);
  }
}
