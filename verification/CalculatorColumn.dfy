/** The calculator's view model as the code has it: fields that its setters, runs and presses overwrite
    (gui/ChronoMock.App/Calc/CalculatorViewModel.cs). Every method keeps a current result the answer to the builder
    beside it, and its clock stamp the one it was asked under. */
module CalculatorColumns {
  import opened AnswerSlots
  import C = Calculator
  import opened Wrappers

  class CalculatorColumn {
    const host: int -> int
    var builder: C.Builder
    var computedOnce: bool
    var result: Slot
    var runs: seq<C.Run>
    var shown: Option<C.Shown>
    var askedClock: C.Stamp
    var epoch: nat
    var scheduled: nat
    var now: int
    var sending: Option<int>
    var transfers: seq<C.Transfer>

    ghost function View(): C.Column
      reads this
    {
      C.Column(builder, computedOnce, result, runs, shown, askedClock, epoch, scheduled)
    }

    ghost function Screen(): C.Screen
      reads this
    {
      C.Screen(View(), now, sending, transfers, [])
    }

    ghost predicate Valid()
      reads this
    {
      C.Honest(View(), host)
    }

    /** The question asked last is the builder as it stands, asked just now, and its answer alone is awaited. */
    ghost predicate AskedJustNow()
      reads this
    {
      && runs != [] && runs[|runs| - 1] == C.Run(builder, now, false)
      && result == Slot(false, Some(|runs| - 1)) && askedClock == C.StampOf(host, builder, now)
    }

    ghost predicate Sendable()
      reads this
    {
      shown.Some? && shown.value.result.Moment? && shown.value.result.transferable
    }

    constructor (builder: C.Builder, host: int -> int, now: int)
      ensures Valid() && C.Fresh(Screen()) && this.builder == builder && this.host == host && this.now == now
    {
      this.builder, this.host, this.now := builder, host, now;
      computedOnce, result, runs, shown, askedClock := false, CURRENT, [], None, C.Timeless;
      epoch, scheduled, sending, transfers := 0, 0, None, [];
    }

    method ClearResult()
      modifies `shown, `epoch
      ensures shown == None && epoch == old(epoch) + 1
    {
      shown := None;
      epoch := epoch + 1;
    }

    /** `RunAsync` up to the question: a base that cannot be read is answered before one is asked. */
    method Recompute()
      modifies `result, `runs, `shown, `askedClock, `epoch
      ensures View() == C.Recompute(old(View()), host, now)
    {
      if result.current {
        return;
      }
      result := result.Begin(|runs|);
      if builder.base.Specific? && !builder.valid {
        ClearResult();
        result := result.Answer(|runs|);
      } else {
        askedClock := C.StampOf(host, builder, now);
        runs := runs + [C.Run(builder, now, false)];
      }
    }

    /** A setter of the builder: from the edit on, and not only from the run it schedules, the result on screen is
        not current and no answer on its way will be shown. */
    method Edit(edited: C.Builder)
      requires Valid()
      modifies `builder, `result, `scheduled
      ensures Valid() && View() == C.Edit(old(View()), edited) && builder == edited
      ensures computedOnce ==> !result.current && result.live == None && scheduled == old(scheduled) + 1
      ensures !computedOnce ==> result == old(result) && scheduled == old(scheduled)
    {
      builder := edited;
      if !computedOnce {
        return;
      }
      result := result.Ask();
      scheduled := scheduled + 1;
    }

    /** The quiet period after the last edit is over: what is not current is asked, unless the base says that there is
        nothing to ask. */
    method QuietEnds()
      requires Valid()
      modifies `result, `runs, `shown, `askedClock, `epoch, `scheduled
      ensures Valid() && View() == C.Fire(old(View()), host, now)
      ensures scheduled <= old(scheduled) && (old(scheduled) > 0 ==> scheduled == old(scheduled) - 1)
      ensures old(scheduled) > 0 && !old(result.current) ==> AskedJustNow() || (result == CURRENT && shown == None)
      ensures AskedJustNow() || shown == None || View() == old(View()).(scheduled := scheduled)
    {
      C.HonestStep(Screen(), host, C.QuietEnds);
      if scheduled > 0 {
        scheduled := scheduled - 1;
        Recompute();
      }
    }

    /** A preset that waits for its parameters: no result, and no answer on its way can bring one. */
    method ShowWithoutResult(edited: C.Builder)
      requires Valid()
      modifies `builder, `result, `shown, `epoch
      ensures Valid() && View() == C.Withhold(old(View()), edited)
      ensures computedOnce ==> builder == edited && shown == None && result == CURRENT && epoch > old(epoch)
      ensures !computedOnce ==> unchanged(this)
    {
      if computedOnce {
        builder := edited;
        result := result.Settle();
        ClearResult();
      }
    }

    /** `RunAsync` from the reply on, accepted or refused, then let go: only the answer to the builder as it stands
        reaches the screen, and a refusal leaves nothing of the result before it. */
    method Reply(run: nat, reply: C.Result)
      requires Valid() && run < |runs| && !runs[run].replied
      modifies `result, `runs, `shown, `epoch
      ensures Valid() && View() == C.Reply(old(View()), run, reply) && |runs| == |old(runs)|
      ensures forall k :: 0 <= k < |runs| ==>
        runs[k] == if k == run then old(runs)[k].(replied := true) else old(runs)[k]
      ensures old(result.live) != Some(run) ==> shown == old(shown) && epoch == old(epoch) && result == old(result)
      ensures old(result.live) == Some(run) && reply.Moment? ==>
        result == CURRENT && epoch == old(epoch) && shown == Some(C.Shown(builder, runs[run].askedAt, reply))
      ensures old(result.live) == Some(run) && reply.Refused? ==>
        result == CURRENT && epoch > old(epoch) && shown == None
    {
      C.HonestStep(Screen(), host, C.EngineReplies(run, reply));
      var accepted := result.live == Some(run);
      if accepted && reply.Moment? {
        shown := Some(C.Shown(runs[run].builder, runs[run].askedAt, reply));
      } else if accepted {
        ClearResult();
      }
      runs := runs[run := runs[run].(replied := true)];
      result := result.Answer(run);
    }

    /** From here on whatever is taken from the screen is of this moment's stamp, unless an answer of another is on its
        way with none on screen; the result itself stays on screen, and time never moves a specific date's. */
    method AskAgainIfTheClockMoved()
      requires Valid()
      modifies `result, `runs, `shown, `askedClock, `epoch
      ensures Valid() && View() == C.AskAgain(old(View()), host, now)
      ensures shown == old(shown) && epoch == old(epoch)
      ensures C.WillFit(View(), host, now) <==> C.FindsItsTime(old(View()), host, now)
      ensures AskedJustNow() || View() == old(View())
      ensures builder.base.Specific? || shown.None? ==> View() == old(View())
    {
      C.APressFindsWhatFitsIff(View(), host, now);
      if shown.Some? && !builder.base.Specific? && C.StampOf(host, builder, now) != askedClock {
        result := result.Ask();
        Recompute();
      }
    }

    /** The screen is shown: the first time it computes, after that it asks for a clock that moved and nothing else. */
    method EnsureComputed()
      requires Valid()
      modifies `computedOnce, `result, `runs, `shown, `askedClock, `epoch
      ensures Valid() && View() == C.Reveal(old(View()), host, now) && computedOnce
      ensures !old(computedOnce) ==> AskedJustNow() || (result == CURRENT && shown == None && builder.base.Specific?)
      ensures old(computedOnce) ==> shown == old(shown) && (AskedJustNow() || View() == old(View()))
      ensures old(computedOnce) && builder.base.Specific? ==> View() == old(View())
      ensures old(computedOnce) ==> (C.WillFit(View(), host, now) <==> C.FindsItsTime(old(View()), host, now))
    {
      if computedOnce {
        AskAgainIfTheClockMoved();
        return;
      }
      computedOnce := true;
      result := result.Ask();
      Recompute();
    }

    method Send(pressedAt: int)
      requires Valid() && result.current
      modifies `transfers
      ensures Screen() == C.Send(old(Screen()), pressedAt)
      ensures Sendable() <==> transfers != old(transfers)
      ensures Sendable() ==> transfers == old(transfers) + [C.Transfer(shown.value, builder, pressedAt)]
      ensures Sendable() && C.WillFit(View(), host, pressedAt) ==> C.Sent(host, transfers[|transfers| - 1])
    {
      if shown.Some? && shown.value.result.Moment? && shown.value.result.transferable {
        transfers := transfers + [C.Transfer(shown.value, builder, pressedAt)];
      }
    }

    /** "Use this date", as far as its wait: one press sends one date at most, at once only from a current result and
        otherwise not before the wait for one ends; a press while another waits is not heard. */
    method RequestUse()
      requires Valid()
      modifies this
      ensures Valid() && Screen() == C.Use(old(Screen()), host)
      ensures builder == old(builder) && shown == old(shown) && now == old(now)
      ensures old(sending).Some? ==> unchanged(this)
      ensures old(sending).None? ==>
        && (C.WillFit(View(), host, now) <==> C.FindsItsTime(old(View()), host, now))
        && sending == (if result.current then None else Some(now))
        && (transfers == old(transfers) <==> !result.current || !Sendable())
        && (transfers != old(transfers) ==> transfers == old(transfers) + [C.Transfer(shown.value, builder, now)]
                                            && C.Sent(host, transfers[|transfers| - 1]))
    {
      if sending.Some? {
        return;
      }
      AskAgainIfTheClockMoved();
      if result.current {
        Send(now);
      } else {
        sending := Some(now);
      }
    }

    /** And what comes after it: the date sent is the one then on screen, of the builder as it then stands. */
    method UseWakes()
      requires Valid() && sending.Some? && result.current
      modifies `sending, `transfers
      ensures Valid() && Screen() == C.UseWoken(old(Screen())) && sending == None
      ensures Sendable() <==> transfers != old(transfers)
      ensures Sendable() ==> transfers == old(transfers) + [C.Transfer(shown.value, builder, old(sending.value))]
      ensures Sendable() && C.WillFit(View(), host, old(sending.value)) ==> C.Sent(host, transfers[|transfers| - 1])
    {
      var pressedAt := sending.value;
      sending := None;
      Send(pressedAt);
    }
  }
}
