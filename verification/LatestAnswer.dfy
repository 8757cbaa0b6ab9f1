/** The answer to the latest input, and only to it (gui/ChronoMock.App/LatestAnswer.cs): what each call does
    under its lock, and what it is left to do once the lock is let go. */
module LatestAnswers {
  import opened Wrappers

  /** One run: its ticket, and the cancellation source the ticket owns. */
  datatype Run = Run(generation: nat, accepted: bool, cancelled: bool, disposals: nat, throws: bool)

  /** The state behind the lock, with every run and every waiters' signal ever made, how often the change
      event was raised, and what a throwing cancellation callback kept from happening. */
  datatype Answer = Answer(
    asked: nat,
    answered: nat,
    running: Option<nat>,
    waiting: Option<nat>,
    runs: seq<Run>,
    signals: seq<bool>,
    raised: nat,
    lostRaises: nat,
    lostWakes: set<nat>)
  {
    predicate IsCurrent() { answered == asked }
  }

  const NEW_ANSWER := Answer(0, 0, None, None, [], [], 0, 0, {})

  /** What a call still has to do outside the lock, in this order. */
  datatype Work = Work(cancel: Option<nat>, dispose: Option<nat>, wake: Option<nat>, raise: bool)

  const NO_WORK := Work(None, None, None, false)

  // --- Under the lock ---

  /** `Change`: the input moved on, to be answered later or already its own answer. */
  function Change(a: Answer, answered: bool): (Answer, Work) {
    (a.(asked := a.asked + 1,
        answered := if answered then a.asked + 1 else a.answered,
        running := None,
        waiting := if answered then None else a.waiting),
     Work(a.running, a.running, if answered then a.waiting else None, a.IsCurrent() != answered))
  }

  function Ask(a: Answer): (Answer, Work) { Change(a, false) }

  function Settle(a: Answer): (Answer, Work) { Change(a, true) }

  /** `Begin`: the ticket is the index of the run it starts; none, where there is nothing to compute. */
  function Begin(a: Answer): (Answer, Work, Option<nat>) {
    if a.IsCurrent() then (a, NO_WORK, None)
    else
      (a.(running := Some(|a.runs|), runs := a.runs + [Run(a.asked, false, false, 0, false)]),
       Work(a.running, a.running, None, false),
       Some(|a.runs|))
  }

  predicate Accepts(a: Answer, ticket: nat)
    requires ticket < |a.runs|
  {
    a.runs[ticket].generation == a.asked && !a.runs[ticket].cancelled
  }

  function Accept(a: Answer, ticket: nat): Answer
    requires ticket < |a.runs|
  {
    if Accepts(a, ticket) then a.(runs := a.runs[ticket := a.runs[ticket].(accepted := true)]) else a
  }

  /** Whether letting this run go makes the input answered. */
  predicate Answers(a: Answer, ticket: nat)
    requires ticket < |a.runs|
  {
    a.runs[ticket].accepted && a.runs[ticket].generation == a.asked && !a.IsCurrent()
  }

  function Release(a: Answer, ticket: nat): (Answer, Work)
    requires ticket < |a.runs|
  {
    var flips := Answers(a, ticket);
    var mine := a.running == Some(ticket);
    (a.(answered := if flips then a.asked else a.answered,
        waiting := if flips then None else a.waiting,
        running := if mine then None else a.running),
     Work(None, if mine then Some(ticket) else None, if flips then a.waiting else None, flips))
  }

  function Abandon(a: Answer): (Answer, Work) {
    (a.(running := None), Work(a.running, a.running, None, false))
  }

  /** One look of `WhenCurrentAsync`: the signal to wait on, or none where the input is answered. */
  function Look(a: Answer): (Answer, Option<nat>) {
    if a.IsCurrent() then (a, None)
    else if a.waiting.Some? then (a, a.waiting)
    else (a.(waiting := Some(|a.signals|), signals := a.signals + [false]), Some(|a.signals|))
  }

  // --- Outside it ---

  predicate Sound(a: Answer, w: Work) {
    && (w.cancel.Some? ==> w.cancel.value < |a.runs|)
    && (w.dispose.Some? ==> w.dispose.value < |a.runs|)
    && (w.wake.Some? ==> w.wake.value < |a.signals|)
  }

  /** The next of what is left to do. A callback that throws out of the cancellation still lets the source
      be disposed, and nothing after that happens. */
  function Do(a: Answer, w: Work): (Answer, Work)
    requires Sound(a, w)
  {
    if w.cancel.Some? then
      var r := w.cancel.value;
      var cancelled := a.(runs := a.runs[r := a.runs[r].(cancelled := true)]);
      if a.runs[r].throws then
        (cancelled.(lostRaises := a.lostRaises + if w.raise then 1 else 0,
                    lostWakes := a.lostWakes + if w.wake.Some? then {w.wake.value} else {}),
         Work(None, w.dispose, None, false))
      else (cancelled, w.(cancel := None))
    else if w.dispose.Some? then
      var r := w.dispose.value;
      (a.(runs := a.runs[r := a.runs[r].(disposals := a.runs[r].disposals + 1)]), w.(dispose := None))
    else if w.wake.Some? then (a.(signals := a.signals[w.wake.value := true]), w.(wake := None))
    else if w.raise then (a.(raised := a.raised + 1), w.(raise := false))
    else (a, w)
  }

  /** All of it, one thing after another with no other call in between. */
  function Finish(a: Answer, w: Work): Answer
    requires Sound(a, w)
    decreases w.cancel.Some?, w.dispose.Some?, w.wake.Some?, w.raise
  {
    if w == NO_WORK then a
    else
      var (b, rest) := Do(a, w);
      Finish(b, rest)
  }

  /** Whether the cancellation a call has to make throws out of it. */
  predicate Throws(a: Answer, w: Work)
    requires Sound(a, w)
  {
    w.cancel.Some? && a.runs[w.cancel.value].throws
  }
}
