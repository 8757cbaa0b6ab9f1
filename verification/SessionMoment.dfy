/** The start moment as the code has it: a field that raises an event on every change, handlers that look at two
    flags to tell who made it, and the selection beside it (gui/ChronoMock.App/Session/MomentRequests.cs,
    SessionViewModel.cs). Every method keeps what the field holds and what the selection claims. */
module SessionMoments {
  import opened AnswerSlots
  import M = MomentRequests
  import S = SessionStarts
  import opened Wrappers

  class SessionMoment {
    var slot: Slot
    var requests: seq<M.Request>
    var field: Option<string>
    var selected: Option<nat>
    var failed: bool
    var relativeAsked: bool
    var filling: bool
    var fillingFromScenario: bool
    var zone: int
    ghost var newest: Option<nat>
    ghost var source: M.Source

    ghost function View(): M.Board
      reads this
    {
      M.Board(slot, requests, newest, field, source, selected, failed, relativeAsked)
    }

    ghost predicate AtRest()
      reads this
    {
      !filling && !fillingFromScenario
    }

    /** Between two events: a current field is as the newest input left it, only the newest request may still fill
        it, and a selected scenario is the one it answers, in the zone shown. */
    ghost predicate Valid()
      reads this
    {
      AtRest() && M.Sensible(View()) && S.Claims(View(), zone)
    }

    /** The newest request is this one, and it alone may still fill the field. */
    predicate Outstanding(question: M.Question)
      reads this
    {
      && requests != [] && requests[|requests| - 1].question == question
      && slot == Slot(false, Some(|requests| - 1))
    }

    ghost function Panel(amount: Option<nat>): S.Session
      reads this
    {
      S.Session(View(), zone, amount, false, false, false, false, [], [])
    }

    constructor (shipped: string, zone: int)
      ensures Valid() && field == Some(shipped) && source == M.ByHand && slot.current && this.zone == zone
    {
      slot, requests, field, selected := CURRENT, [], Some(shipped), None;
      failed, relativeAsked, filling, fillingFromScenario := false, false, false, false;
      newest, source := None, M.ByHand;
      this.zone := zone;
    }

    method ClearScenarioSelection()
      modifies `selected, `failed
      ensures View() == M.ClearSelection(old(View()))
    {
      if selected.None? {
        return;
      }
      selected := None;
      failed := false;
    }

    /** The field's change event, and the two handlers behind it. A change nobody is filling in is its own answer, and
        no answer on its way may land after it; one a scenario's answer makes leaves that scenario selected. */
    method OnChanged()
      modifies `slot, `selected, `failed, `newest, `source
      ensures !filling ==> slot == CURRENT && newest == None && source == M.ByHand
      ensures filling ==> slot == old(slot) && newest == old(newest) && source == old(source)
      ensures !fillingFromScenario ==> selected == None && (failed ==> old(failed) && old(selected).None?)
      ensures !fillingFromScenario && old(failed) && old(selected).None? ==> failed
      ensures fillingFromScenario ==> selected == old(selected) && failed == old(failed)
    {
      if !filling {
        slot := slot.Settle();
        newest, source := None, M.ByHand;
      }
      if !fillingFromScenario {
        ClearScenarioSelection();
      }
    }

    /** Typed, Today or Now, the calculator's date, a history row: anything but an answer of the engine's. */
    method Put(value: Option<string>)
      requires Valid()
      modifies this
      ensures Valid() && View() == M.Put(old(View()), value) && zone == old(zone)
      ensures field == value && source == M.ByHand && slot == CURRENT && selected == None
    {
      field := value;
      OnChanged();
    }

    method AskNew(question: M.Question, stage: M.Stage)
      modifies `slot, `requests, `newest, `relativeAsked
      ensures View() == M.Ask(old(View()), question, stage)
    {
      relativeAsked := question.Relative?;
      slot := slot.Ask();
      slot := slot.Begin(|requests|);
      newest := Some(|requests|);
      requests := requests + [M.Request(question, stage)];
    }

    /** A choice touches nothing in the field; the chosen scenario's request is then the only one that may, and it
        waits out the quiet period exactly if something was still unanswered. Choosing what is chosen asks nothing. */
    method Choose(scenario: Option<nat>)
      requires Valid()
      modifies this
      ensures Valid() && View() == M.Choose(old(View()), zone, scenario) && zone == old(zone)
      ensures field == old(field) && source == old(source) && selected == scenario
      ensures scenario == old(selected) || scenario.None? ==> slot == old(slot) && requests == old(requests)
      ensures scenario != old(selected) && scenario.Some? ==>
        && Outstanding(M.Scenario(scenario.value)) && !failed && old(requests) < requests
        && (requests[|requests| - 1].stage.Quiet? <==> !old(slot.current))
    {
      S.KeptStep(Panel(None), S.ChooseScenario(scenario));
      S.ClaimsStep(Panel(None), S.ChooseScenario(scenario));
      if selected == scenario {
        return;
      }
      selected := scenario;
      if scenario.Some? {
        var overAnUnanswered := !slot.current;
        failed := false;
        AskNew(M.Scenario(scenario.value), if overAnUnanswered then M.Quiet else M.Asked(zone));
      }
    }

    /** "Now, shifted": touches nothing in the field, and takes the place of whatever was asked before it; an amount
        that cannot be read changes nothing. */
    method ApplyShift(amount: Option<nat>)
      requires Valid()
      modifies this
      ensures Valid() && View() == M.ApplyShift(old(View()), zone, amount) && zone == old(zone)
      ensures field == old(field) && source == old(source) && selected == old(selected)
      ensures amount.None? ==> View() == old(View())
      ensures amount.Some? ==> Outstanding(M.Relative(amount.value)) && old(requests) < requests
    {
      S.KeptStep(Panel(amount), S.ApplyRelative);
      S.ClaimsStep(Panel(amount), S.ApplyRelative);
      if amount.Some? {
        AskNew(M.Relative(amount.value), M.Asked(zone));
      }
    }

    /** A new zone moves no date: a selected scenario is asked for its date there, a date put there by hand stays as
        it is, with nothing on its way to it. */
    method SetZone(to: int, amount: Option<nat>)
      requires Valid()
      modifies this
      ensures Valid() && zone == to
      ensures View() == if to == old(zone) then old(View()) else M.EnterZone(old(View()), to, amount)
      ensures field == old(field) && source == old(source) && selected == old(selected)
      ensures to != old(zone) && selected.Some? ==> Outstanding(M.Scenario(selected.value)) && !failed
      ensures old(slot.current) && selected.None? ==> slot == old(slot)
    {
      S.KeptStep(Panel(amount), S.SetZone(to));
      S.ClaimsStep(Panel(amount), S.SetZone(to));
      if to == zone {
        return;
      }
      zone := to;
      if selected.Some? {
        var overAnUnanswered := !slot.current;
        failed := false;
        AskNew(M.Scenario(selected.value), if overAnUnanswered then M.Quiet else M.Asked(zone));
      } else if relativeAsked && !slot.current {
        if amount.Some? {
          AskNew(M.Relative(amount.value), M.Asked(zone));
        }
      }
    }

    /** A quiet period over: the request asks, in the zone as it is now, if nothing newer was asked in between. */
    method Elapse(run: nat)
      requires Valid()
      modifies `requests
      ensures Valid() && View() == M.Elapse(old(View()), zone, run) && |requests| == |old(requests)|
      ensures forall k :: 0 <= k < |requests| ==>
        requests[k] == old(requests)[k] || (k == run && requests[k].stage == M.Asked(zone))
      ensures M.Live(View(), run) ==> !requests[run].stage.Quiet?
    {
      S.KeptStep(Panel(None), S.QuietEnds(run));
      S.ClaimsStep(Panel(None), S.QuietEnds(run));
      if slot.live == Some(run) && run < |requests| && requests[run].stage.Quiet? {
        requests := requests[run := M.Request(requests[run].question, M.Asked(zone))];
      }
    }

    /** An accepted answer fills the field under the flags, so its own change event settles nothing and leaves
        the scenario that caused it selected. */
    method Fill(canonical: Option<string>, question: M.Question, asked: int)
      requires AtRest()
      modifies `field, `filling, `fillingFromScenario, `slot, `selected, `failed, `newest, `source
      ensures AtRest() && View() == M.Show(old(View()), question, asked, M.Gave(canonical))
    {
      filling := true;
      fillingFromScenario := question.Scenario?;
      field := canonical;
      source := M.From(question, asked);
      OnChanged();
      filling := false;
      fillingFromScenario := false;
    }

    /** What an accepted answer puts on screen: its date, or that a scenario has none. */
    method Tell(question: M.Question, asked: int, reply: M.Reply)
      requires AtRest()
      modifies `field, `filling, `fillingFromScenario, `slot, `selected, `failed, `newest, `source
      ensures AtRest() && View() == M.Show(old(View()), question, asked, reply)
    {
      match reply {
        case Gave(canonical) => Fill(canonical, question, asked);
        case GaveNone => if question.Scenario? { failed := true; }
      }
    }

    /** The run is over with this reply, and shown if it was the newest outstanding. */
    method Record(run: nat, reply: M.Reply)
      requires AtRest() && run < |requests| && requests[run].stage.Asked?
      modifies this
      ensures AtRest() && View() == M.Answer(old(View()), run, reply) && zone == old(zone)
    {
      var question, asked := requests[run].question, requests[run].stage.zone;
      requests := requests[run := M.Request(question, M.Over(asked, reply))];
      if slot.live == Some(run) {
        Tell(question, asked, reply);
      }
      slot := slot.Answer(run);
    }

    /** The engine answers a run: nothing changes for one that is not the newest outstanding; that one's date fills
        the field, which is current from then on. */
    method Answer(run: nat, reply: M.Reply)
      requires Valid() && run < |requests| && requests[run].stage.Asked?
      modifies this
      ensures Valid() && View() == M.Answer(old(View()), run, reply) && zone == old(zone)
      ensures old(slot.live) != Some(run) ==>
        field == old(field) && source == old(source) && selected == old(selected) && slot == old(slot)
      ensures old(slot.live) == Some(run) ==>
        slot.current && (reply.Gave? ==> field == reply.canonical && source.From?)
        && (reply.GaveNone? ==> field == old(field) && source == old(source))
    {
      M.AnswerIsSensible(View(), run, reply);
      S.AnswersKeepClaims(View(), zone, run, reply);
      hide M.Sensible, S.Claims;
      Record(run, reply);
    }
  }
}
