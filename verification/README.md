# ChronoMock, modelled and proved

ChronoMock starts an application under a substituted date. This project models the parts of it where a wrong
answer is easiest to give and hardest to see, and proves what each of them promises.

**The answer to the latest input** (`gui/ChronoMock.App/LatestAnswer.cs`). A screen asks the engine something, the
input moves on, and the answer comes later or never. `LatestAnswer.dfy` says what each call does under its lock and
what it is left to do outside it; `LatestAnswerClass.dfy` is the class itself, with its fields, tickets,
cancellation sources and waiters' signals, each method tied to the former. `AnswerThreads.dfy` interleaves any
number of calls, runs and waiting actions, one lock section and one piece of unlocked work at a time, with callbacks
that throw, and settles who owns a cancellation source. `AnswerFreshness.dfy` says what is on screen, when a wait
ends, and how often the change event is raised. `AnswerSlots.dfy` shows that a dispatcher, which runs one whole call
after another, sees only whether it is current and which run it would still accept, and everything below is built on
that.

**What fills a session's start moment** (`MomentRequests.dfy`, `SessionMoment.dfy`, `SessionStart.dfy`): typing,
scenarios, "now, shifted", a new zone, and Start, with an engine that answers in any order. `SessionAnswers.dfy` runs
the same panel on the full protocol, cancellation sources included, and shows the two agree over every run. **The calculator's
presses and its clock** (`Calculator.dfy`, `CalculatorColumn.dfy`). **The debouncer** (`Debounces.dfy`,
`DebounceClass.dfy`).

**Moments as text and in zones**: the civil calendar of the engine (`Civil.dfy`), FILETIME instants
(`Instants.dfy`), the parser and printer of the moment field (`MomentParse.dfy`), the field and its zones
(`MomentField.dfy`), and the shift of a calculator step (`ShiftDays.dfy`).

**A session's clocks** (`crates/ctl/src/lib.rs`): the anchor block and its projections, with saturation at 64 bits
written out (`SessionClock.dfy`), any course of rate changes, jumps and releases against exact arithmetic
(`SessionHistory.dfy`), and the block read while it is written, field by field, by any number of processes, with the
core killed anywhere, each process let go in its own time, and readers whose patience runs out (`SessionReaders.dfy`).
`SessionTornReads.dfy` and `SessionOverAChange.dfy` say exactly what such a reader answers over a rate change, whichever
of its stores it saw, and when that is too little or too much; `SessionReleases.dfy` the same of processes let go late
or apart (`SessionRuns.dfy` puts their runs together).

**The layout instrument** of the tests: the walk over a visual tree (`LayoutWalk.dfy`, `LayoutTree.dfy`,
`LayoutPlaces.dfy`), the rules read off it (`LayoutRules.dfy`), and the colour a line of text is painted on
(`PaperBehind.dfy`), which serves Success Criterion 1.4.3 of WCAG 2.1.

In every machine an event that cannot happen where things stand changes nothing, and a run is any sequence of
events. Engine replies, real clocks, timers, and the visual tree with its bounds and pixels are inputs.

## Where a promise has an edge

Each is a theorem with the exact condition, and where it helps a concrete run.

- An answer accepted on one thread and put on screen after a settle on another is shown over the settled input
  (`AnAnswerAppliedLateIsShown`). What is on screen is right at every state of a run exactly if no older answer is put
  there over the newest input's own (`RightThroughoutIff`); an older one put there before the newest has its own does
  no harm. On the dispatcher an answer is put on screen in the turn that accepted it, and there the promise
  holds with no condition (`OnTheDispatcherWhatIsCurrentIsShown`).
- A cancellation callback that throws still gets its source disposed, and loses the wake-up and the event that were
  to follow: an action then waits for an input that is already answered (`AThrowLeavesAnActionWaiting`). Exactly whose
  signal was lost so cannot wake (`WakesUnlessLost`).
- Start refuses a scenario that gave no date, but not one overtaken by a "now, shifted" that gave none: it starts with
  the date from before the choice, with the scenario still selected (`AChoiceOvertakenStartsWithTheOldDate`); exactly
  then and never otherwise does it go with another date than the newest input's (`AStartHasTheNewestDate`).
- Typing a date lifts the refusal of a failed scenario exactly if the scenario is still selected: one deselected
  after it failed goes on refusing (`ADateByHandLiftsTheRefusalIff`, `ADeselectedFailureGoesOnRefusing`).
- A new zone leaves nothing of another zone on its way exactly if a scenario is selected, or what is on its way is a
  "now, shifted" whose amount can still be read, has not asked yet, or was asked in that very zone
  (`AZoneChangeAsksAgainIff`): a scenario chosen and deselected fills its old wall clock into the new zone
  (`AnAnswerOfTheOldZoneFills`). It asks another question than the one pending when a "now, shifted" was asked while a
  scenario was selected, or its amount was edited since (`AZoneChangeKeepsTheQuestionIff`,
  `AZoneChangeAsksTheOlderQuestion`).
- A press looks at the clock only where a result is on screen. Every use and copy is of its own time throughout a run
  exactly if each press finds a result on screen, or nothing on its way, or a question asked under the clock's stamp
  (`TrueThroughoutIff`); a press before the first answer, with a day gone since it was asked, takes yesterday's
  (`APressWithNoResultTakesYesterdays`).
- A superseded debounced action still runs if its quiet period was over before it was superseded and only its
  continuation had not run yet (`EachCallRunsUnlessSuperseded`, `AnElapsedRunStillRuns`); two calls get there
  (`ASupersededActionRuns`). A call whose cancellation of the one before it throws never runs its action, and its
  source waits in the slot for the next call (`ABrokenOffCallNeverRuns`, `AThrowBreaksOffTheCall`).
- Of the dates the engine can print and the field cannot hold, year 0 alone is called impossible rather than out of
  range (`EngineDatesAreToldApart`).
- A reader whose patience runs out loads the fields of a rate change as they stand, and nothing in the code tells it
  whether the writer is dead, held, or about to go on between its loads. What it answers is settled by which stores
  each load saw (`AReadingOverAChange`, in every interleaving with one rate change):
  - less than the axis stood at when the change was made, exactly if the base is the old one and the time counted has
    not, at the rate loaded, come to what the axis had gone by then. Some clock shows it exactly if time had passed on
    the old origin and the origin is the new one, or the rate is the new one of a slowdown (`AMixFallsBackIff`). A
    speed-up from x2 to x3 answers 2000 and then 0 (`AReadingFallsBackIff`, `AReadingOverASpeedUpFallsBack`);
  - more than the finished change, exactly if what is gained by the old rate before a slowdown and by time counted again
    on the old origin outweighs what is lost with the old base (`RunsAheadIff`, and the condition for some clock to show
    it in `AHalfWrittenRateChangeMisleadsIff`). The next reading at that clock is lower exactly then
    (`GivingUpRunsBackIff`): `ASpeedUpGivenUpOnRunsBack` answers 2000 and then 1000, `ASlowdownGivenUpOnRunsBack` loses
    43 seconds.
- After a core is gone each process lets go at an instant its watcher chose a margin after reading the clock, and nothing
  bounds how late it is published. In time, no reading of the process runs back. Late, a later reading is lower than one
  already answered exactly if that one lay past the instant, the session runs faster than real time and the axis is not
  at its top (`ALatePublicationMisleadsIff`, and by the two clocks in every interleaving `ALatePublicationRunsBackIff`):
  at x60, 90000000 and then 60500001 (`ALateReleaseRunsBack`).
- Between processes, one let go earlier falls behind one let go later exactly if the session runs faster than real time
  and is not at the top of its range (`AcrossProcessesIff`, and the run `AcrossProcessesItRunsBack`).

## Model

| member | source | states |
|---|---|---|
| AnswerThreads.OwnedStep | gui/ChronoMock.App/LatestAnswer.cs:72-327 | every step of every thread keeps each source with one owner: the slot, one thread's hands, or nobody once disposed |
| AnswerThreads.EverySourceHasOneOwner | gui/ChronoMock.App/LatestAnswer.cs:19-24 | over every run: a source is disposed once at most, nobody is about to touch a disposed one or one another party holds, and once the threads are done all but the slot's are disposed |
| AnswerThreads.EverySupersededRunIsCancelled | gui/ChronoMock.App/LatestAnswer.cs:58-65 | over every run, once the threads are done only the newest ticket's run, for the newest input, can be left uncancelled and unfinished |
| AnswerThreads.CallsKeepOwners | gui/ChronoMock.App/LatestAnswer.cs:279-306 | a call hands the source it takes out of the slot to its own thread alone |
| AnswerFreshness.StepIsRightIff | gui/ChronoMock.App/LatestAnswer.cs:96-118 | a step keeps what is shown right - the newest input's own answer, once it has one - exactly if it does not put an older answer over it |
| AnswerFreshness.RightThroughoutIff | gui/ChronoMock.App/LatestAnswer.cs:98-100 | what is shown is right at every state of a run exactly if no older answer is put on screen while the newest input has its own |
| AnswerFreshness.WhatIsCurrentIsShown | gui/ChronoMock.App/LatestAnswer.cs:49-58 | in every interleaving that meets that condition: whenever the input is current, what is shown is the answer to it |
| AnswerFreshness.OnTheDispatcherWhatIsCurrentIsShown | gui/ChronoMock.App/LatestAnswer.cs:181-213 | every run in which an answer is put on screen in the turn that accepted it meets the condition, so there it holds outright |
| AnswerFreshness.AnAnswerAppliedLateIsShown | gui/ChronoMock.App/LatestAnswer.cs:186-197 | a run over two threads that ends current with an older answer shown |
| AnswerFreshness.CurrentIff | gui/ChronoMock.App/LatestAnswer.cs:129-163 | over every run: the input is current exactly if since the last edit to be answered it was settled, or a run accepted for it was let go, abandoned since or not |
| AnswerFreshness.ARunLeftAloneAnswers | gui/ChronoMock.App/LatestAnswer.cs:181-213 | a live run of the newest input, granted, shown and released, leaves it current with its answer shown |
| AnswerFreshness.ARunThatQuitsLeavesTheInput | gui/ChronoMock.App/LatestAnswer.cs:199-212 | a run that ends with nothing to show leaves the input as it was and hands its source to its own thread |
| AnswerFreshness.AThreadLeftAloneFinishes | gui/ChronoMock.App/LatestAnswer.cs:300-327 | the piecewise work of a call, with nothing in between, comes to what the whole call comes to |
| AnswerFreshness.AWaitEndsWithTheNewestAnswer | gui/ChronoMock.App/LatestAnswer.cs:215-258 | in every interleaving that meets the condition of RightThroughoutIff: a wait says "current" only with the newest input's own answer on screen, edits made during it included |
| AnswerFreshness.WakesUnlessLost | gui/ChronoMock.App/LatestAnswer.cs:226-258 | once the threads are done, whoever waits for an answered input can wake exactly if no throw lost its signal |
| AnswerFreshness.WhatAWaitSays | gui/ChronoMock.App/LatestAnswer.cs:226-258 | a wait says "current" exactly if it looks, or its time runs out, while the input is current; "not current" exactly if its time is out and the input is not; a look with time left waits for the next signal |
| AnswerFreshness.AWaitIsAnswered | gui/ChronoMock.App/LatestAnswer.cs:226-258 | over whole runs: once the threads are done and the input is answered, a waiter whose signal no throw lost wakes, looks, and says "current" with the newest input's own answer on screen |
| AnswerFreshness.OneEventAFlip | gui/ChronoMock.App/LatestAnswer.cs:42-43 | the event was raised once a flip, less what a throw lost; where nothing was lost its parity tells whether the input is current |
| AnswerFreshness.NothingIsLostWithoutAThrow | gui/ChronoMock.App/LatestAnswer.cs:308-327 | without a throwing callback no wake-up and no event is ever lost |
| AnswerFreshness.AThrowLeavesAnActionWaiting | gui/ChronoMock.App/LatestAnswer.cs:300-305 | with one, a run that ends current and quiet with an action waiting on a signal nobody sets |
| LatestAnswerClass.LatestAnswer.constructor | gui/ChronoMock.App/LatestAnswer.cs:34-40 | a new one is current, with nothing asked and nothing running |
| LatestAnswerClass.LatestAnswer.Change | gui/ChronoMock.App/LatestAnswer.cs:279-306 | the whole call: new input, older run cancelled and disposed, waiters woken and event raised unless the cancellation throws |
| LatestAnswerClass.LatestAnswer.Begin | gui/ChronoMock.App/LatestAnswer.cs:72-94 | a ticket for the newest input, with the run before it put down; none if it is answered, none if putting down throws |
| LatestAnswerClass.LatestAnswer.Accept | gui/ChronoMock.App/LatestAnswer.cs:105-118 | granted exactly for the newest input and an uncancelled run, and nothing becomes current by it |
| LatestAnswerClass.LatestAnswer.Release | gui/ChronoMock.App/LatestAnswer.cs:129-163 | answers the newest input if its run was accepted, and disposes the source only if it is still in the slot |
| LatestAnswerClass.LatestAnswer.Abandon | gui/ChronoMock.App/LatestAnswer.cs:267-277 | the run is put down and the input stays as it is |
| LatestAnswerClass.LatestAnswer.Put | gui/ChronoMock.App/LatestAnswer.cs:312-327 | cancels, then disposes, even where the cancellation throws |
| LatestAnswerClass.LatestAnswer.Look | gui/ChronoMock.App/LatestAnswer.cs:231-240 | nothing to wait for when current, otherwise the one signal every waiter shares |
| AnswerSlots.AskIsAsk | gui/ChronoMock.App/LatestAnswer.cs:60-65 | seen from the dispatcher, an edit makes the input not current and leaves no run to accept |
| AnswerSlots.SettleIsSettle | gui/ChronoMock.App/LatestAnswer.cs:60-65 | seen from the dispatcher, a settled input is current and leaves no run to accept |
| AnswerSlots.BeginIsBegin | gui/ChronoMock.App/LatestAnswer.cs:72-94 | seen from the dispatcher, the new run alone would be accepted |
| AnswerSlots.AnswerIsAnswer | gui/ChronoMock.App/LatestAnswer.cs:105-163 | a run that ends is accepted exactly if it is the live one, and makes the input current exactly then |
| AnswerSlots.AbandonIsAbandon | gui/ChronoMock.App/LatestAnswer.cs:260-277 | seen from the dispatcher, abandoning leaves no run to accept and moves nothing else |
| AnswerSlots.QuitIsQuit | gui/ChronoMock.App/LatestAnswer.cs:199-212 | a run that ends with nothing to show moves nothing but itself out of the slot |
| SessionAnswers.AQuestionNoLongerAskedIsStopped | gui/ChronoMock.App/Session/MomentRequests.cs:95-165 | over every run of the panel: the engine's run for a question is in the slot exactly while its answer may still fill the field, one that no longer may was cancelled, and every other source was disposed once |
| SessionAnswers.StepIsBacked | gui/ChronoMock.App/Session/MomentRequests.cs:95-165 | every event of the panel is the calls of the full protocol that it makes, with one run a request |
| MomentRequests.AnswerIsSensible | gui/ChronoMock.App/Session/MomentRequests.cs:173-198 | an answer keeps: a current field is as the newest input left it, and only the newest request may still fill it |
| SessionMoments.SessionMoment.Put | gui/ChronoMock.App/Session/MomentRequests.cs:65-75 | through the change event and its two handlers: a date by hand is in the field, is its own answer with nothing on its way to it, and no scenario is left selected |
| SessionMoments.SessionMoment.Fill | gui/ChronoMock.App/Session/MomentRequests.cs:185-195 | through the same event under the two flags: an answer fills the field without settling it, and a scenario's keeps its scenario selected |
| SessionMoments.SessionMoment.Answer | gui/ChronoMock.App/Session/MomentRequests.cs:120-132 | an answer of a run that is not the newest outstanding changes nothing shown; that one's date fills the field, which is current from then on |
| SessionMoments.SessionMoment.ApplyShift | gui/ChronoMock.App/Session/RelativeMomentViewModel.cs:80-96 | the date in the field stays; from here on only the "now, shifted" may fill it, and an unreadable amount leaves all as it was |
| SessionMoments.SessionMoment.Choose | gui/ChronoMock.App/Session/SessionViewModel.cs:978-994 | the date in the field stays; from here on only the chosen scenario may fill it, waiting out the quiet period exactly if something was unanswered; the same choice again asks nothing |
| SessionMoments.SessionMoment.SetZone | gui/ChronoMock.App/Session/SessionViewModel.cs:575-605 | no date moves; a selected scenario alone may fill the field from then on, and a date by hand has nothing on its way to it |
| SessionMoments.SessionMoment.Elapse | gui/ChronoMock.App/Session/MomentRequests.cs:115-122 | a live request asks, in the zone as it is then; no other request changes and the selection stays true to the zone |
| SessionStarts.ACurrentFieldHoldsTheNewest | gui/ChronoMock.App/Session/MomentRequests.cs:6-16 | over every run a current field holds what the newest input came to, unless that came to nothing |
| SessionStarts.AStartHasTheNewestDate | gui/ChronoMock.App/Session/SessionViewModel.cs:1970-2000 | Start goes only with a current field; with the newest input's date exactly unless that was a "now, shifted" that gave none |
| SessionStarts.AStartIff | gui/ChronoMock.App/Session/SessionViewModel.cs:1970-2000 | exactly when there is a start: a press finds the field current, or its wait ends on a current field, and no session runs, there is a target and a readable date, nothing failed, nothing is refused and the window is not closing |
| SessionStarts.AStartThatWaitedGoes | gui/ChronoMock.App/Session/SessionViewModel.cs:1970-2000 | a run from the open window: a scenario, Start, its answer, the wake, and one start with the scenario's date |
| SessionStarts.APressWaitsIff | gui/ChronoMock.App/Session/SessionViewModel.cs:1982-1993 | a press waits from when it finds the field not current until it is woken on a current one or gives up on one that is not |
| SessionStarts.ARefusalIff | gui/ChronoMock.App/Session/SessionViewModel.cs:1982-1993 | a wait that gives up refuses any start, exactly until the field turns current |
| SessionStarts.ThePanelKeepsWhatItIsTold | gui/ChronoMock.App/Session/SessionViewModel.cs:575-605 | zone, amount, target and closing are as last set, and nothing else moves them |
| SessionStarts.ADatePutByHandIsKept | gui/ChronoMock.App/Session/MomentRequests.cs:65-74 | put there by hand at any point of any run, a date stays for as long as nothing else is put there or asked, whatever answers come, whatever zone is chosen |
| SessionStarts.ADateByHandLiftsTheRefusalIff | gui/ChronoMock.App/Session/SessionViewModel.cs:1072-1087 | a typed date makes Start possible again exactly if nothing failed or the failed scenario is still selected |
| SessionStarts.ADeselectedFailureGoesOnRefusing | gui/ChronoMock.App/Session/SessionViewModel.cs:1072-1087 | a run from the open window to a typed, current date that Start refuses |
| SessionStarts.TheSelectionIsTrue | gui/ChronoMock.App/Session/SessionViewModel.cs:587-605 | over every run, a selected scenario that did not fail has its own date of the zone shown in a current field, unless a "now, shifted" after it gave none |
| SessionStarts.AChoiceOvertakenStartsWithTheOldDate | gui/ChronoMock.App/Session/SessionViewModel.cs:763-767 | and then a run in which Start goes with the date from before the choice |
| SessionStarts.AZoneChangeAsksAgainIff | gui/ChronoMock.App/Session/SessionViewModel.cs:594-605 | exactly when a new zone leaves no question of another zone on its way, whatever zone that was asked in |
| SessionStarts.AnAnswerOfTheOldZoneFills | gui/ChronoMock.App/Session/SessionViewModel.cs:594-605 | a run from the open window to a date of the old zone, current under the new one |
| SessionStarts.AZoneChangeKeepsTheQuestionIff | gui/ChronoMock.App/Session/SessionViewModel.cs:594-605 | exactly when it asks the very question that was on its way |
| SessionStarts.AZoneChangeAsksTheOlderQuestion | gui/ChronoMock.App/Session/SessionViewModel.cs:594-605 | a run from the open window in which the scenario is asked again and the "now, shifted" after it is dropped |
| SessionStarts.AQuietChoiceIsAsked | gui/ChronoMock.App/Session/MomentRequests.cs:110-132 | a choice over an unanswered one asks when its quiet period ends, in the zone as it is then, and its answer fills the field |
| SessionStarts.ARunOfChoicesAsksOnce | gui/ChronoMock.App/Session/MomentRequests.cs:30-36 | arrowing over any number of rows asks once at most before the quiet period ends, and then it is the last row's turn |
| Calculator.HonestStep | gui/ChronoMock.App/Calc/CalculatorViewModel.cs:1240-1262 | every event keeps: a current result answers the builder beside it, and the stamp kept is the one it was asked under |
| Calculator.StampsAgreeIff | gui/ChronoMock.App/Calc/AnswerClock.cs:25-38 | two instants have one stamp exactly if no midnight on the wall of a fixed zone lies between them, or they are of one day by the machine's own clock; for "now" if they are one second; for a date always |
| Calculator.AnEditIsAnswered | gui/ChronoMock.App/Calc/CalculatorViewModel.cs:1240-1263 | an edit, its quiet period and the engine's answer leave the answer to that edit on screen, current, asked when the quiet period ended |
| Calculator.AnUnreadableEditClears | gui/ChronoMock.App/Calc/CalculatorViewModel.cs:1540-1556 | a base that cannot be read takes the result off the screen and asks nothing |
| Calculator.AWaitingPresetShowsNothing | gui/ChronoMock.App/Calc/CalculatorViewModel.cs:1446-1456 | no result is left on screen, and no run on its way can bring one |
| Calculator.ARefusalClears | gui/ChronoMock.App/Calc/CalculatorViewModel.cs:1557-1584 | a refusal takes the place of the result, and is current |
| Calculator.APressFindsWhatFitsIff | gui/ChronoMock.App/Calc/CalculatorViewModel.cs:1058-1078 | exactly when whatever a press comes to take is of its own day or second, or newer: with a result on screen, or nothing on its way, or a question asked at an instant of one time with the press |
| Calculator.TrueThroughoutIff | gui/ChronoMock.App/Calc/CalculatorViewModel.cs:997-1078 | every use and copy made or waiting is of its own time at every state of a run, exactly if each press in it meets that condition |
| Calculator.EveryPressTakesTheAnswerOfItsTime | gui/ChronoMock.App/Calc/CalculatorViewModel.cs:997-1043 | in every such run, each use and each copy took the answer to the builder as it stood, asked after the press or with no midnight of its zone, and no second, in between; a copied text is that row of it |
| Calculator.APressWithNoResultTakesYesterdays | gui/ChronoMock.App/Calc/CalculatorViewModel.cs:1058-1065 | a run from the fresh screen that ends with yesterday's date taken |
| Calculator.APressOverAMidnightAsksAgain | gui/ChronoMock.App/Calc/CalculatorViewModel.cs:1058-1078 | a run from the fresh screen: an answer, some time, Use - sent at once exactly if the zone saw no midnight, and asked again as of the press if it did |
| Calculator.AndTakesTheNewAnswer | gui/ChronoMock.App/Calc/CalculatorViewModel.cs:1008-1031 | and then the date sent is the one asked for as of the press |
| Calculator.AWaitingCopyTakesIff | gui/ChronoMock.App/Calc/CalculatorViewModel.cs:1040-1045 | a copy that waited takes exactly the text that then stands in its row, and nothing if the rows were taken off since |
| Calculator.TheRowsGoIff | gui/ChronoMock.App/Calc/CalculatorViewModel.cs:1557-1584 | the rows are taken off exactly when the count of it moves |
| Calculator.AWaitThatRunsOutTakesNothing | gui/ChronoMock.App/Calc/CalculatorViewModel.cs:1022-1045 | a use or copy whose wait runs out takes nothing and ends |
| Calculator.OnePressOneTransfer | gui/ChronoMock.App/Calc/CalculatorViewModel.cs:1008-1031 | over every run no more dates are sent than presses were made while none was waiting, and what was sent stays sent |
| Calculator.TimeAloneAsksNothing | gui/ChronoMock.App/Calc/AnswerClock.cs:25-38 | while the stamp stays, or for a specific date whatever the clock does, presses and reveals leave the column as it is |
| CalculatorColumns.CalculatorColumn.Recompute | gui/ChronoMock.App/Calc/CalculatorViewModel.cs:1540-1556 | a current result asks nothing, an unreadable base clears it at once, anything else asks under the clock's stamp |
| CalculatorColumns.CalculatorColumn.Edit | gui/ChronoMock.App/Calc/CalculatorViewModel.cs:1240-1263 | from the edit on, and not only from its run, the result is not current and no answer on its way will be shown |
| CalculatorColumns.CalculatorColumn.Reply | gui/ChronoMock.App/Calc/CalculatorViewModel.cs:1557-1584 | only the answer to the builder as it stands reaches the screen, and a refusal leaves nothing of the result before it |
| CalculatorColumns.CalculatorColumn.ShowWithoutResult | gui/ChronoMock.App/Calc/CalculatorViewModel.cs:1446-1456 | no result is shown, and no answer on its way can bring one |
| CalculatorColumns.CalculatorColumn.AskAgainIfTheClockMoved | gui/ChronoMock.App/Calc/CalculatorViewModel.cs:1058-1078 | what is taken from the screen from here on is of this moment's stamp exactly under the condition of a press; the result stays on screen, and a specific date is never asked again |
| CalculatorColumns.CalculatorColumn.EnsureComputed | gui/ChronoMock.App/Calc/CalculatorViewModel.cs:1128-1144 | the first reveal asks, or says that there is nothing to ask; a later one keeps the result and asks for a moved clock or nothing |
| CalculatorColumns.CalculatorColumn.RequestUse | gui/ChronoMock.App/Calc/CalculatorViewModel.cs:1008-1031 | one date at most: at once and of its own time from a current result, else after a wait for one; a press while another waits changes nothing |
| CalculatorColumns.CalculatorColumn.UseWakes | gui/ChronoMock.App/Calc/CalculatorViewModel.cs:1022-1031 | the date sent is the one then on screen with the builder it answers, of the press's own time if what it waited for was |
| Debounces.OwnedStep | gui/ChronoMock.App/Calc/Debounce.cs:20-25 | every step keeps each source with one holder, who alone disposes it |
| Debounces.EachCallRunsUnlessSuperseded | gui/ChronoMock.App/Calc/Debounce.cs:57-72 | over every interleaving, throwing cancellations included: no action runs twice, one that is done and was not put down ran, one put down ran exactly if its wait was over, one broken off by a throw never ran, and the newest call is never put down |
| Debounces.NoSourceIsTouchedAfterDisposal | gui/ChronoMock.App/Calc/Debounce.cs:75-108 | no step cancels or disposes a disposed source, and in the end each was disposed once, those of calls broken off by a throw too |
| Debounces.LeftAloneItRuns | gui/ChronoMock.App/Calc/Debounce.cs:57-72 | a run left alone runs its action once and lets its source go |
| Debounces.ACancelledRunEnds | gui/ChronoMock.App/Calc/Debounce.cs:57-72 | a run put down in its wait ends without its action, and leaves its source to whoever put it down |
| Debounces.AnElapsedRunStillRuns | gui/ChronoMock.App/Calc/Debounce.cs:61-62 | a run whose wait is over runs although a newer call has cancelled and disposed its source |
| Debounces.ASupersededActionRuns | gui/ChronoMock.App/Calc/Debounce.cs:61-62 | a run from the start, of two calls, that gets there |
| Debounces.ABrokenOffCallNeverRuns | gui/ChronoMock.App/Calc/Debounce.cs:52-54 | a call whose cancellation of the run before it threw never runs its action, whatever comes after |
| Debounces.AThrowBreaksOffTheCall | gui/ChronoMock.App/Calc/Debounce.cs:75-95 | a run from the start of two calls that gets there, with the older source disposed all the same |
| DebounceClass.Debounce.RunAsync | gui/ChronoMock.App/Calc/Debounce.cs:37-55 | the new source is in the slot and the one it replaces cancelled and disposed; every other stays as it was |
| DebounceClass.Debounce.Release | gui/ChronoMock.App/Calc/Debounce.cs:102-108 | a source still in the slot is disposed, one already replaced is left alone |
| Civil.CivilOfDays | crates/core/src/lib.rs:357-366 | the day count of a date reads back as the date |
| Civil.DaysOfCivil | crates/core/src/lib.rs:578-588 | every day count names a date of the calendar, which counts back to it |
| Civil.NextDayCounts | crates/core/src/lib.rs:357-379 | the count moves by one from each date to the next on the calendar, leap days and century years included |
| Instants.FiletimeIsExact | crates/core/src/lib.rs:525-556 | a moment has a FILETIME exactly when its tick fits, and it is that tick |
| Instants.WallRoundTrips | crates/core/src/calc.rs:740-770 | a moment's FILETIME reads back in its zone as the moment |
| Instants.FiletimeRoundTrips | crates/core/src/calc.rs:740-770 | any FILETIME's wall text, read in its zone, is that FILETIME to the second |
| Instants.SessionInstantIff | crates/core/src/lib.rs:156-181 | exactly which moments become a session clock, which instant they become, and which of the three reasons any other is refused for |
| Instants.EveryZoneHasRoom | crates/ctl/src/lib.rs:110-119 | whatever the session's clock reads, its local time fits in every zone a session runs in |
| MomentParse.MomentTextIsItsReading | gui/ChronoMock.App/Session/MomentParse.cs:67-79 | the canonical text of a moment is the only text read as it |
| MomentParse.ComposeUndoesSplit | gui/ChronoMock.App/Session/MomentParse.cs:33-89 | splitting a canonical moment and composing it again gives it back, in every year of the window |
| MomentParse.SplitOfComposeIsTidy | gui/ChronoMock.App/Session/MomentParse.cs:71-89 | splitting what was composed gives the tidy form of what was typed |
| MomentParse.TrimTakesTheBlanks | gui/ChronoMock.App/Session/MomentParse.cs:35-71 | what is read of a text is all of it but the blanks at both ends |
| MomentParse.WhatIsNoMomentIsKept | gui/ChronoMock.App/Session/MomentParse.cs:71-79 | a text that is no moment comes back whole in the date field |
| MomentParse.EveryTextHasItsMessage | gui/ChronoMock.App/Session/MomentParse.cs:35-65 | every pair of texts gets exactly one of the answers, each under its own condition |
| MomentParse.Pad4IsDecimal | crates/core/src/calc.rs:44-46 | a year's digits are its decimal numeral, of four places at least and no more than it needs beyond them |
| MomentParse.EngineDatesAreToldApart | gui/ChronoMock.App/Session/MomentParse.cs:43-53 | which of the engine's own dates are read, and what is said of each of the others |
| MomentFields.WindowOfDays | gui/ChronoMock.App/Session/MomentField.cs:115-119 | the dates of years 1 to 9999 are exactly the day counts the window holds |
| MomentFields.ZonesKeepTheInstant | gui/ChronoMock.App/Session/MomentField.cs:97-127 | a moment re-expressed in another zone is the same instant, and loads exactly when the window holds it |
| MomentFields.ZonesCompose | gui/ChronoMock.App/Session/MomentField.cs:107-127 | a load by way of a third zone is the direct load |
| MomentFields.ZonesUndo | gui/ChronoMock.App/Session/MomentField.cs:107-127 | a load back undoes a load, across every midnight, month, leap day and year |
| MomentFields.MomentField.LoadInZone | gui/ChronoMock.App/Session/MomentField.cs:107-127 | holds the moment in the other zone and says so, or is left untouched and says so |
| MomentFields.MomentField.LoadCanonical | gui/ChronoMock.App/Session/MomentField.cs:91-95 | holds a canonical moment as it is |
| MomentFields.MomentField.SetToday | gui/ChronoMock.App/Session/MomentField.cs:154-158 | midnight of the day it is in the session's zone; throws, with the field untouched, exactly where the calendar ends |
| MomentFields.MomentField.SetNow | gui/ChronoMock.App/Session/MomentField.cs:160-168 | the wall time it is in the session's zone, to the second; throws in the same case |
| MomentFields.MomentField.Clear | gui/ChronoMock.App/Session/MomentField.cs:134-141 | back to a field nobody touched, with no message |
| ShiftDays.WrittenIsRead | gui/ChronoMock.App.Tests/CalculatorSheetEngine.cs:88-102 | every sign, number and unit written out is read back as meant, and refused exactly when the number does not fit 64 bits |
| ShiftDays.WrittenWithZerosIsRead | gui/ChronoMock.App.Tests/CalculatorSheetEngine.cs:88-102 | zeros before the number change nothing |
| ShiftDays.RefusedForWantOfANumberIff | gui/ChronoMock.App.Tests/CalculatorSheetEngine.cs:90-94 | exactly the shifts with no digit after their first character are refused for it |
| ShiftDays.FormatsOfOneMoment | gui/ChronoMock.App.Tests/CalculatorSheetEngine.cs:52-70 | epoch, milliseconds and FILETIME of one moment name the same instant, and its date is the day it falls on |
| SessionClock.EveryPrefixRunsOn | crates/ctl/src/lib.rs:1079-1090 | a core killed after any number of the stores of a rate change leaves duration axes no earlier than before it; the whole change is continuous |
| SessionClock.EveryPrefixKeepsTheWall | crates/ctl/src/lib.rs:1079-1090 | the same for the wall clock |
| SessionClock.ControlBlock.WriteInOrder | crates/ctl/src/lib.rs:1118-1139 | the fields are stored one at a time in the order given, with the sequence number odd |
| SessionClock.ControlBlock.Rebase | crates/ctl/src/lib.rs:1178-1204 | a rate change freezes every axis where it stands and carries it on at the new rate |
| SessionClock.ControlBlock.Jump | crates/ctl/src/lib.rs:1037-1055 | a jump moves the wall and leaves the duration axes |
| SessionHistory.EveryAxisIsTheSumOfItsRates | crates/ctl/src/lib.rs:1178-1204 | after any course of events each axis is the exact sum of real time by its rate, cut at the end of its range, and never ran back |
| SessionHistory.ASessionKeepsItsPromise | crates/ctl/src/lib.rs:1518-1548 | the same from the start of a session, with the wall held inside its range |
| SessionHistory.AStandingAxisIsReported | crates/ctl/src/lib.rs:1566-1570 | an axis either advanced by exactly the time and its rate, or stands at the top and says so - and one below the top comes to say so exactly when its advance no longer fits |
| SessionReaders.StepKeeps | crates/ctl/src/lib.rs:1304-1325 | every load, store, clock, kill, reader that gives up and release published in time keeps: what any reader holds gives no less than every answer that bounds it from before it began |
| SessionReaders.NoDurationAxisRunsBack | crates/ctl/src/lib.rs:1252-1325 | in every interleaving in which no rate change goes on that was given up on and no release is published late, a reading that begins after another was answered answers no less: always in the same process, and in another unless that one was let go first, before the reading, from a session faster than real time and not at its top |
| SessionReaders.AcrossProcessesIff | crates/hook/src/lib.rs:541-590 | exactly when two processes let go at two instants cannot run back against each other: in order, or neither faster than real time, or at the top of the range |
| SessionReaders.TicksFollowQuit | crates/ctl/src/lib.rs:1498-1504 | the tick count runs back only if the axis behind it does |
| SessionReaders.TicksAreMilliseconds | crates/ctl/src/lib.rs:1498-1504 | the tick count is the whole milliseconds of the QUIT reading past the session's offset, held in its range |
| SessionRuns.AnOvertakenReaderReadsAgain | crates/ctl/src/lib.rs:1304-1325 | a reader that finds the sequence number moved begins again, and answers from the block as it then stands |
| SessionRuns.AJumpLeftAlone | crates/ctl/src/lib.rs:1037-1055 | a jump left alone moves the wall and nothing else |
| SessionTornReads.MixedIs | crates/ctl/src/lib.rs:1408-1415 | what base, origin and rate give, each loaded after any number of the stores of a rate change |
| SessionTornReads.FallsBackIff | crates/ctl/src/lib.rs:1079-1090 | at exactly which clocks that is less than the axis stood at when the change was made |
| SessionTornReads.AMixFallsBackIff | crates/ctl/src/lib.rs:1079-1090 | exactly when there is such a clock: an old base with time on its origin, beside the new origin or the new rate of a slowdown |
| SessionTornReads.RunsAheadIff | crates/ctl/src/lib.rs:1079-1090 | at exactly which clocks it is more than the finished change gives |
| SessionTornReads.AHalfWrittenRateChangeMisleadsIff | crates/ctl/src/lib.rs:1079-1090 | exactly when there is such a clock, for each of the eight mixes and every prefix |
| SessionOverAChange.AReadingOverAChange | crates/ctl/src/lib.rs:1252-1325 | in every interleaving of a reading with the stores of a rate change: it falls below what the axis stood at, and runs ahead of the finished change, exactly as the stores its loads saw say |
| SessionOverAChange.OtherwiseItKeepsUp | crates/ctl/src/lib.rs:1252-1325 | and where it does not fall back, it answers no less than any process was given before the change |
| SessionOverAChange.AReadingFallsBackIff | crates/ctl/src/lib.rs:1252-1325 | a reading answered, a rate change at its clock, a reading over it: the second is lower exactly if it falls back |
| SessionOverAChange.GivingUpRunsBackIff | crates/ctl/src/lib.rs:1252-1325 | a reading over a rate change, the end of the change, another reading at the same clock: the second is lower exactly if the first ran ahead |
| SessionOverAChange.AReadingOverASpeedUpFallsBack | crates/ctl/src/lib.rs:1252-1325 | a whole run from an open session, from x2 to x3, the base loaded before it was stored and the origin after: 2000, then 0 |
| SessionOverAChange.ASpeedUpGivenUpOnRunsBack | crates/ctl/src/lib.rs:1252-1325 | a whole run from an open session, from x1 to x2: 2000 ticks, then 1000 |
| SessionOverAChange.ASlowdownGivenUpOnRunsBack | crates/ctl/src/lib.rs:1252-1325 | another, from x1440 to x1: 43 seconds lost after 30 ms |
| SessionReleases.ADeadCoresReading | crates/ctl/src/lib.rs:1536-1546 | in every interleaving with the core dead: a reading answers by its process's line at its own clock, held or let go all through it |
| SessionReleases.ALatePublicationMisleadsIff | crates/ctl/src/lib.rs:1630-1646 | exactly when an instant published after an answer lowers some later reading of the process: the answer lay past it, the session runs fast, the axis is not at its top |
| SessionReleases.ALatePublicationRunsBackIff | crates/hook/src/lib.rs:569-590 | in every interleaving with the core dead, by the clocks of the two readings, exactly when the one begun after the publication is lower |
| SessionReleases.ALateReleaseRunsBack | crates/hook/src/lib.rs:569-590 | a whole run at x60: 90000000, the publication, one tick, 60500001 |
| SessionReleases.AcrossProcessesItRunsBack | crates/hook/src/lib.rs:541-590 | a whole run of a core killed at x60 and two processes let go a tenth of a millisecond apart, in which the later reading is the lower |
| LayoutWalk.Walk | gui/ChronoMock.App.Tests/LayoutProbe.cs:82-117 | the loop with a stack ends, and its list is that of the recursive walk in visual order |
| LayoutWalk.PushChildren | gui/ChronoMock.App.Tests/LayoutProbe.cs:165-193 | the children come off the stack first to last, before what was under them |
| LayoutTree.WalkIsFaithful | gui/ChronoMock.App.Tests/LayoutProbe.cs:88-113 | each element is a recorded node: visible iff it and every ancestor is, scrolling as its nearest viewer, a control of its own iff inside none, clipped to exactly what no strict ancestor cuts off |
| LayoutTree.ClipBelow | gui/ChronoMock.App.Tests/LayoutProbe.cs:175-205 | a point is in the clip handed down iff neither the node nor anything above it cuts it off: a node that clips, outside its bounds; a presenter, past them in each axis its nearest viewer does not scroll |
| LayoutTree.OwnClipCuts | gui/ChronoMock.App.Tests/LayoutProbe.cs:165-203 | the region a node cuts its content to is exactly what it does not cut off |
| LayoutTree.AViewportCutsWhatItDoesNotScroll | gui/ChronoMock.App.Tests/LayoutProbe.cs:195-203 | within the reach of any window, a viewport cuts at its presenter's edges in exactly the axes it does not scroll |
| LayoutPlaces.WalkListsEachOnce | gui/ChronoMock.App.Tests/LayoutProbe.cs:98-108 | every recorded node of the tree is in the list exactly once |
| LayoutPlaces.ListedInOrder | gui/ChronoMock.App.Tests/LayoutProbe.cs:187-192 | the list is in visual order: a node before what is below it and to its right |
| LayoutPlaces.SubtreesAreBlocks | gui/ChronoMock.App.Tests/LayoutProbe.cs:187-192 | each subtree is one block of the list that begins at its own root |
| LayoutPlaces.ParentsAreNamed | gui/ChronoMock.App.Tests/LayoutProbe.cs:99-108 | a parent index is smaller and names the visual parent, or is -1: exactly for the root and for a child of an unrecorded node |
| LayoutPlaces.Within | gui/ChronoMock.App.Tests/ParameterRowLayoutTests.cs:181-192 | decides the strict-ancestor relation exactly, wherever no node between the two is unrecorded |
| LayoutRules.SpillsOutOfItsParent | gui/ChronoMock.App.Tests/LayoutRules.cs:127-149 | every element that spills and no other, in the order of the list |
| LayoutRules.SpillsIff | gui/ChronoMock.App.Tests/LayoutRules.cs:127-164 | what spills is shown and has room in a parent that is and has, and has a point more than half a pixel past it in an axis that does not scroll |
| LayoutRules.TheClipRulesReportIff | gui/ChronoMock.App.Tests/LayoutRules.cs:65-87 | the clip rules report exactly what shares no room with its clip, and controls that share some and have a point further from it than half a pixel |
| LayoutRules.SlackAddsUp | gui/ChronoMock.App.Tests/LayoutRules.cs:158-164 | where nothing spills, an element of any list reaches past one k parents above it by k half pixels at most |
| LayoutRules.NothingReachesFar | gui/ChronoMock.App.Tests/LayoutRules.cs:127-164 | and so on the tree: where the walk's list has nothing that spills, what is drawn reaches past its ancestor k levels up by k half pixels at most, in each axis that does not scroll in between |
| LayoutRules.AClipIsInsideEachOfItsParts | gui/ChronoMock.App.Tests/LayoutProbe.cs:199-205 | an element's clip lies inside that of each ancestor that clips |
| LayoutRules.AnUnreportedControlIsWhole | gui/ChronoMock.App.Tests/LayoutRules.cs:65-87 | every point of a control neither clip rule reports is within half a pixel of one that no given ancestor cuts off |
| PaperBehind.ClampedIsWhatIsReached | gui/ChronoMock.App.Tests/ContrastReport.cs:166-173 | the box read is exactly the columns and rows of the canvas that the bounds reach into |
| PaperBehind.InBounds | gui/ChronoMock.App.Tests/ContrastReport.cs:180-182 | no pixel of the canvas is read off its end |
| PaperBehind.BucketsKeepTheColour | gui/ChronoMock.App.Tests/ContrastReport.cs:182-215 | a bucket's colour is its pixels' colour, each channel down to the eight below |
| PaperBehind.Count | gui/ChronoMock.App.Tests/ContrastReport.cs:175-185 | each bucket's count is the number of places of the box whose painted colour rounds down to the bucket's |
| PaperBehind.BoxOfPlaces | gui/ChronoMock.App.Tests/ContrastReport.cs:175-185 | a bucket is met once at each place whose painted colour - blue, green, red, four bytes a place, row after row - rounds down to its own |
| PaperBehind.BoxIsCounted | gui/ChronoMock.App.Tests/ContrastReport.cs:175-185 | the counts add up to the area of the box |
| PaperBehind.Surface | gui/ChronoMock.App.Tests/ContrastReport.cs:192-212 | despite its early break the search gives the fullest bucket, or the fullest far from the ink that covers a tenth where the fullest is the ink's; a near one only if no far one covers a tenth |
| PaperBehind.TenAtMost | gui/ChronoMock.App.Tests/ContrastReport.cs:200-205 | the tenth-share test passes nine times at most |
| PaperBehind.Behind | gui/ChronoMock.App.Tests/ContrastReport.cs:164-213 | nothing exactly for a box with no pixel on the canvas, and otherwise the surface of what is painted there; a box painted all in one colour gives that colour, rounded down |

## Left out

- AnswerFreshness.WhatIsCurrentIsShown: under the condition RightThroughoutIff shows to be exact, which the comment on
  `Accept` asks of its callers; without it the promise is false of threads, as AnAnswerAppliedLateIsShown shows.
- AnswerFreshness.AWaitEndsWithTheNewestAnswer: on the same terms.
- Calculator.EveryPressTakesTheAnswerOfItsTime: under the condition TrueThroughoutIff shows to be exact; without it
  the promise is false, as APressWithNoResultTakesYesterdays shows.
- SessionReaders.NoDurationAxisRunsBack: takes no rate change to go on that a reader gave up on, nor under one reading
  without having looked, and no release to be published after its instant. One rate change gone on under a reading is
  settled by AReadingOverAChange, a late release by ALatePublicationRunsBackIff, and processes let go apart by
  AcrossProcessesIff; a reading without a look that goes on over two rate changes or more is not settled.
- Instants.SessionInstantIff: takes the fields of a moment's text; splitting the text at its separators is not modelled.
- The hooks, injection, the process tree, the browser driver and the fake waits and timers: the model takes the
  clocks they read and answers what they read.
- The seqlock's memory ordering: every load and store is one step in one order, and the sequence number does not wrap
  at 32 bits. A reader may give up at any time, whatever it spun for.
- `long` generations do not wrap, and a thread that holds the lock is one step.
- In `SessionAnswers.dfy` and `Calculator.dfy` no cancellation callback throws; what a throw does to the protocol and to
  the debouncer is in `AnswerThreads.dfy`, `AnswerFreshness.dfy` and `Debounces.dfy`.
- A callback of `answer` that itself throws a cancellation, which the run then swallows: an accepted answer is always
  put on screen, or a failure in its place.
- The order of continuations inside one turn of the dispatcher: an answer, its release and the message it leaves are
  one event, and so are the end of a wait and what Start or a press does next.
- Calculator steps, calendars, masks and presets are one number of the builder; the reverse analysis, which runs the
  same protocol, and a change of language, which rebuilds the rows, are not modelled.
- The zone rules of the machine's own clock: the calculator's host zone is any function from instants to wall clocks.
- Rounding: WPF's doubles are reals here, and so are the contrast sampler's shares. Luminance and the contrast ratio
  with their 2.4 exponent, opacity, text widths and the remaining layout rules are not modelled.
- `OrderByDescending` keeps the order of equal counts; here equal counts may come in either order.
- WPF itself: measuring, arranging, rendering, and which nodes of a tree are visuals or connected to the root.
- `TryParseExact`, `Trim` and the regular expressions are modelled by what they accept; the digit class of `\d` is any
  that holds the ASCII digits.
- Audit reports, verdicts, history, settings, localization and the command line.
