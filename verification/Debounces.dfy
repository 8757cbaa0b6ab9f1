/** One debounced action (gui/ChronoMock.App/Calc/Debounce.cs): every interleaving of calls, timers, resumed runs
    and releases, with the sources they cancel and dispose. */
module Debounces {
  import opened Wrappers

  /** A call that put its source in the slot starts its wait once the run before it is put down. Its wait ends
      or is cancelled, the action runs or not, and the run lets its source go. A call that the cancellation throws out
      of never starts its wait. */
  datatype Stage = Installed | Quiet | Elapsed | Cancelled | Over | LettingGo | Gone | NeverStarted

  /** Who is to dispose a source; the code keeps no record of it, its steps alone decide. */
  datatype Holder = Slot | Caller(caller: nat) | Itself | Nobody

  /** `early` says that the wait was over before anyone cancelled it. */
  datatype Run = Run(
    caller: nat, stage: Stage, cancelled: bool, early: bool, ran: nat, disposals: nat, holder: Holder)

  /** What a caller is still to do for its call: put down the run it replaced, then start its own, unless a callback
      threw. */
  datatype Chore =
    | Idle
    | Cancelling(previous: nat, mine: nat)
    | Disposing(previous: nat, mine: nat, threw: bool)
    | Starting(mine: nat)

  datatype World = World(pending: Option<nat>, runs: seq<Run>, chores: seq<Chore>)

  datatype Event =
    | Call(caller: nat)
    | Proceed(caller: nat)
    | CancelThrows(caller: nat)
    | TimerFires(run: nat)
    | Resume(run: nat)
    | LetGo(run: nat)
    | DisposeOwn(run: nat)

  function Set(s: World, r: nat, run: Run): World
    requires r < |s.runs|
  {
    s.(runs := s.runs[r := run])
  }

  predicate At(s: World, r: nat, stage: Stage) { r < |s.runs| && s.runs[r].stage == stage }

  /** The new run takes the slot, and the caller what was in it. */
  function OnCall(s: World, c: nat): World
    requires c < |s.chores|
  {
    var mine := |s.runs|;
    var runs := if s.pending.Some? && s.pending.value < mine then
                  s.runs[s.pending.value := s.runs[s.pending.value].(holder := Caller(c))]
                else s.runs;
    World(Some(mine), runs + [Run(c, Installed, false, false, 0, 0, Slot)],
          s.chores[c := if s.pending.None? then Starting(mine) else Cancelling(s.pending.value, mine)])
  }

  /** Cancelling ends a wait that is still going on, and touches nothing else. */
  function CancelRun(run: Run): Run {
    run.(cancelled := true, stage := if run.stage.Quiet? then Cancelled else run.stage)
  }

  function DisposeRun(run: Run): Run { run.(disposals := run.disposals + 1, holder := Nobody) }

  function OnCancel(s: World, c: nat, throws: bool): World
    requires c < |s.chores| && s.chores[c].Cancelling?
  {
    var (p, m) := (s.chores[c].previous, s.chores[c].mine);
    if p < |s.runs| then Set(s, p, CancelRun(s.runs[p])).(chores := s.chores[c := Disposing(p, m, throws)]) else s
  }

  function OnDispose(s: World, c: nat): World
    requires c < |s.chores| && s.chores[c].Disposing?
  {
    var (p, m) := (s.chores[c].previous, s.chores[c].mine);
    if p >= |s.runs| || m >= |s.runs| then s
    else
      var put := Set(s, p, DisposeRun(s.runs[p]));
      if s.chores[c].threw then
        Set(put, m, put.runs[m].(stage := NeverStarted)).(chores := s.chores[c := Idle])
      else put.(chores := s.chores[c := Starting(m)])
  }

  function OnProceed(s: World, c: nat): World
    requires c < |s.chores|
  {
    match s.chores[c]
    case Idle => s
    case Cancelling(_, _) => OnCancel(s, c, false)
    case Disposing(_, _, _) => OnDispose(s, c)
    case Starting(m) =>
      if m < |s.runs| then
        Set(s, m, s.runs[m].(stage := if s.runs[m].cancelled then Cancelled else Quiet)).(chores := s.chores[c := Idle])
      else s
  }

  /** One step; one that cannot be taken where things stand changes nothing. */
  function Step(s: World, e: Event): World {
    match e
    case Call(c) => if c < |s.chores| && s.chores[c].Idle? then OnCall(s, c) else s
    case Proceed(c) => if c < |s.chores| then OnProceed(s, c) else s
    case CancelThrows(c) => if c < |s.chores| && s.chores[c].Cancelling? then OnCancel(s, c, true) else s
    case TimerFires(r) => if At(s, r, Quiet) then Set(s, r, s.runs[r].(stage := Elapsed, early := true)) else s
    case Resume(r) =>
      if At(s, r, Elapsed) then Set(s, r, s.runs[r].(stage := Over, ran := s.runs[r].ran + 1))
      else if At(s, r, Cancelled) then Set(s, r, s.runs[r].(stage := Over))
      else s
    case LetGo(r) =>
      if At(s, r, Over) then
        if s.pending == Some(r) then Set(s, r, s.runs[r].(stage := LettingGo, holder := Itself)).(pending := None)
        else Set(s, r, s.runs[r].(stage := Gone))
      else s
    case DisposeOwn(r) =>
      if At(s, r, LettingGo) then Set(s, r, DisposeRun(s.runs[r]).(stage := Gone)) else s
  }

  function After(s: World, events: seq<Event>): World
    decreases |events|
  {
    if events == [] then s else After(Step(s, events[0]), events[1..])
  }

  predicate Fresh(s: World) {
    s.pending == None && s.runs == [] && forall c :: 0 <= c < |s.chores| ==> s.chores[c] == Idle
  }

  // --- Who owns a source ---

  predicate PutsDown(chore: Chore, r: nat) { (chore.Cancelling? || chore.Disposing?) && chore.previous == r }

  /** The holder of a source is who holds it, it has been disposed once if nobody does, and it is cancelled on its
      way down alone. */
  predicate HeldAsSaid(s: World, r: nat)
    requires r < |s.runs|
  {
    var run := s.runs[r];
    && run.disposals == (if run.holder.Nobody? then 1 else 0)
    && (run.holder.Itself? <==> run.stage.LettingGo?)
    && (match run.holder
        case Slot => s.pending == Some(r) && !run.cancelled
        case Caller(c) => c < |s.chores| && PutsDown(s.chores[c], r) && (run.cancelled ==> s.chores[c].Disposing?)
        case _ => true)
  }

  predicate ChoreHolds(s: World, c: nat)
    requires c < |s.chores|
  {
    var chore := s.chores[c];
    !chore.Idle? ==>
      && chore.mine < |s.runs| && s.runs[chore.mine].caller == c && s.runs[chore.mine].stage.Installed?
      && (!chore.Starting? ==> chore.previous < chore.mine && s.runs[chore.previous].holder == Caller(c))
  }

  predicate Owned(s: World) {
    && (s.pending.Some? ==> s.pending.value < |s.runs| && s.runs[s.pending.value].holder == Slot)
    && (forall c :: 0 <= c < |s.chores| ==> ChoreHolds(s, c))
    && (forall r :: 0 <= r < |s.runs| ==> HeldAsSaid(s, r))
  }

  lemma CallOwned(s: World, c: nat)
    requires Owned(s) && c < |s.chores| && s.chores[c].Idle?
    ensures Owned(OnCall(s, c))
  {
    var n := OnCall(s, c);
    forall r | 0 <= r < |n.runs| ensures HeldAsSaid(n, r) {
      assert r < |s.runs| ==> HeldAsSaid(s, r);
    }
    forall d | 0 <= d < |n.chores| ensures ChoreHolds(n, d) {
      assert ChoreHolds(s, d);
      if s.pending.Some? {
        assert HeldAsSaid(s, s.pending.value);
      }
    }
  }

  lemma CancelOwned(s: World, c: nat, throws: bool)
    requires Owned(s) && c < |s.chores| && s.chores[c].Cancelling?
    ensures Owned(OnCancel(s, c, throws))
  {
    var n := OnCancel(s, c, throws);
    assert ChoreHolds(s, c);
    forall r | 0 <= r < |n.runs| ensures HeldAsSaid(n, r) {
      assert HeldAsSaid(s, r);
    }
    forall d | 0 <= d < |n.chores| ensures ChoreHolds(n, d) {
      assert ChoreHolds(s, d);
    }
  }

  lemma DisposeOwned(s: World, c: nat)
    requires Owned(s) && c < |s.chores| && s.chores[c].Disposing?
    ensures Owned(OnDispose(s, c))
  {
    var n := OnDispose(s, c);
    assert ChoreHolds(s, c);
    forall r | 0 <= r < |n.runs| ensures HeldAsSaid(n, r) {
      assert HeldAsSaid(s, r);
    }
    forall d | 0 <= d < |n.chores| ensures ChoreHolds(n, d) {
      assert ChoreHolds(s, d);
    }
  }

  lemma StartOwned(s: World, c: nat)
    requires Owned(s) && c < |s.chores| && s.chores[c].Starting?
    ensures Owned(OnProceed(s, c))
  {
    var n := OnProceed(s, c);
    assert ChoreHolds(s, c);
    forall r | 0 <= r < |n.runs| ensures HeldAsSaid(n, r) {
      assert HeldAsSaid(s, r);
    }
    forall d | 0 <= d < |n.chores| ensures ChoreHolds(n, d) {
      assert ChoreHolds(s, d);
    }
  }

  lemma ProceedOwned(s: World, c: nat)
    requires Owned(s) && c < |s.chores|
    ensures Owned(OnProceed(s, c))
  {
    match s.chores[c]
    case Idle =>
    case Cancelling(_, _) => CancelOwned(s, c, false);
    case Disposing(_, _, _) => DisposeOwned(s, c);
    case Starting(_) => StartOwned(s, c);
  }

  lemma RunsOwned(s: World, e: Event, r: nat)
    requires Owned(s) && r < |s.runs| && (e == TimerFires(r) || e == Resume(r) || e == DisposeOwn(r))
    ensures Owned(Step(s, e))
  {
    var n := Step(s, e);
    assert HeldAsSaid(s, r);
    forall q | 0 <= q < |n.runs| ensures HeldAsSaid(n, q) {
      assert HeldAsSaid(s, q);
    }
    forall d | 0 <= d < |n.chores| ensures ChoreHolds(n, d) {
      assert ChoreHolds(s, d);
    }
  }

  lemma LetGoOwned(s: World, r: nat)
    requires Owned(s) && r < |s.runs|
    ensures Owned(Step(s, LetGo(r)))
  {
    var n := Step(s, LetGo(r));
    assert HeldAsSaid(s, r);
    forall q | 0 <= q < |n.runs| ensures HeldAsSaid(n, q) {
      assert HeldAsSaid(s, q);
    }
    forall d | 0 <= d < |n.chores| ensures ChoreHolds(n, d) {
      assert ChoreHolds(s, d);
    }
  }

  lemma OwnedStep(s: World, e: Event)
    requires Owned(s)
    ensures Owned(Step(s, e))
  {
    match e
    case Call(c) => if c < |s.chores| && s.chores[c].Idle? { CallOwned(s, c); }
    case Proceed(c) => if c < |s.chores| { ProceedOwned(s, c); }
    case CancelThrows(c) => if c < |s.chores| && s.chores[c].Cancelling? { CancelOwned(s, c, true); }
    case TimerFires(r) => if r < |s.runs| { RunsOwned(s, e, r); }
    case Resume(r) => if r < |s.runs| { RunsOwned(s, e, r); }
    case LetGo(r) => if r < |s.runs| { LetGoOwned(s, r); }
    case DisposeOwn(r) => if r < |s.runs| { RunsOwned(s, e, r); }
  }

  // --- What runs ---

  predicate Ended(run: Run) { run.stage.Over? || run.stage.LettingGo? || run.stage.Gone? }

  /** A run's action runs once if its wait was over before it was cancelled, and never if it was not; only a run
      that a later call replaced is ever put down. */
  predicate RunsAsItWaited(s: World, r: nat)
    requires r < |s.runs|
  {
    var run := s.runs[r];
    && run.ran == (if run.early && Ended(run) then 1 else 0)
    && (match run.stage
        case Installed => !run.early
        case NeverStarted => !run.early
        case Quiet => !run.early && !run.cancelled
        case Elapsed => run.early
        case Cancelled => run.cancelled && !run.early
        case _ => run.early || run.cancelled)
    && (run.cancelled || run.holder.Caller? ==> r + 1 < |s.runs|)
  }

  predicate Faithful(s: World) {
    Owned(s) && forall r :: 0 <= r < |s.runs| ==> RunsAsItWaited(s, r)
  }

  lemma CallWaits(s: World, c: nat, r: nat)
    requires Faithful(s) && c < |s.chores| && r < |OnCall(s, c).runs|
    ensures RunsAsItWaited(OnCall(s, c), r)
  {
    hide HeldAsSaid, ChoreHolds;
    assert r < |s.runs| ==> RunsAsItWaited(s, r);
  }

  lemma CallerWaits(s: World, e: Event, c: nat, r: nat)
    requires Faithful(s) && c < |s.chores| && (e == Proceed(c) || e == CancelThrows(c)) && r < |Step(s, e).runs|
    ensures RunsAsItWaited(Step(s, e), r)
  {
    assert ChoreHolds(s, c) && RunsAsItWaited(s, r);
    hide HeldAsSaid;
    if s.chores[c].Cancelling? || s.chores[c].Disposing? {
      assert RunsAsItWaited(s, s.chores[c].previous);
    }
  }

  lemma RunWaits(s: World, e: Event, r: nat)
    requires Faithful(s) && !e.Call? && !e.Proceed? && !e.CancelThrows? && r < |Step(s, e).runs|
    ensures RunsAsItWaited(Step(s, e), r)
  {
    hide HeldAsSaid, ChoreHolds;
    assert RunsAsItWaited(s, r);
  }

  lemma FaithfulStep(s: World, e: Event)
    requires Faithful(s)
    ensures Faithful(Step(s, e))
  {
    OwnedStep(s, e);
    forall r | 0 <= r < |Step(s, e).runs| ensures RunsAsItWaited(Step(s, e), r) {
      hide RunsAsItWaited, Owned;
      if e.Call? {
        if e.caller < |s.chores| && s.chores[e.caller].Idle? {
          CallWaits(s, e.caller, r);
        } else {
          assert Step(s, e) == s;
        }
      } else if e.Proceed? || e.CancelThrows? {
        if e.caller < |s.chores| {
          CallerWaits(s, e, e.caller, r);
        } else {
          assert Step(s, e) == s;
        }
      } else {
        RunWaits(s, e, r);
      }
    }
  }

  lemma {:induction false} FaithfulRun(s: World, events: seq<Event>)
    requires Faithful(s)
    ensures Faithful(After(s, events))
    decreases |events|
  {
    hide Faithful, Step;
    if events != [] {
      FaithfulStep(s, events[0]);
      FaithfulRun(Step(s, events[0]), events[1..]);
    }
  }

  /** What a run comes to by the time it is gone: exactly one action, or, put down before its wait was over, none. */
  predicate ComesToOneAction(s: World, r: nat)
    requires r < |s.runs|
  {
    && s.runs[r].ran <= 1
    && (Ended(s.runs[r]) ==> (s.runs[r].ran == 1 <==> s.runs[r].early))
    && (Ended(s.runs[r]) && !s.runs[r].cancelled ==> s.runs[r].ran == 1)
    && (s.runs[r].stage.NeverStarted? ==> s.runs[r].ran == 0)
  }

  /** In every interleaving: no action runs twice, a call that nothing put down runs its action, one put down runs
      it only if its wait was over by then - and the newest call is never put down. */
  lemma EachCallRunsUnlessSuperseded(start: World, events: seq<Event>, r: nat)
    requires Fresh(start) && r < |After(start, events).runs|
    ensures var s := After(start, events);
      && ComesToOneAction(s, r)
      && (r + 1 == |s.runs| ==> !s.runs[r].cancelled && (Ended(s.runs[r]) ==> s.runs[r].ran == 1))
  {
    FaithfulRun(start, events);
    assert RunsAsItWaited(After(start, events), r);
  }

  /** A call that a throwing callback broke off never runs its action, whatever comes after. */
  lemma {:induction false} ABrokenOffCallNeverRuns(s: World, events: seq<Event>, r: nat)
    requires Faithful(s) && At(s, r, NeverStarted)
    ensures At(After(s, events), r, NeverStarted) && After(s, events).runs[r].ran == 0
    decreases |events|
  {
    assert RunsAsItWaited(s, r);
    if events != [] {
      FaithfulStep(s, events[0]);
      StaysBrokenOff(s, events[0], r);
      hide Step;
      ABrokenOffCallNeverRuns(Step(s, events[0]), events[1..], r);
    }
  }

  lemma StaysBrokenOff(s: World, e: Event, r: nat)
    requires Owned(s) && At(s, r, NeverStarted)
    ensures At(Step(s, e), r, NeverStarted)
  {
    if (e.Proceed? || e.CancelThrows?) && e.caller < |s.chores| {
      assert ChoreHolds(s, e.caller);
    }
  }

  /** The sources a step is about to cancel or dispose. */
  predicate Touches(s: World, e: Event, r: nat) {
    match e
    case Proceed(c) => c < |s.chores| && PutsDown(s.chores[c], r)
    case CancelThrows(c) => c < |s.chores| && PutsDown(s.chores[c], r)
    case DisposeOwn(q) => q == r && At(s, r, LettingGo)
    case _ => false
  }

  /** No step touches a disposed source, each is disposed once at most, and once every caller is done and every
      run gone, each has been. */
  lemma NoSourceIsTouchedAfterDisposal(start: World, events: seq<Event>, e: Event, r: nat)
    requires Fresh(start) && r < |After(start, events).runs|
    ensures var s := After(start, events);
      && s.runs[r].disposals <= 1
      && (Touches(s, e, r) ==> s.runs[r].disposals == 0)
      && ((s.runs[r].stage.Gone? || s.runs[r].stage.NeverStarted?)
          && (forall c :: 0 <= c < |s.chores| ==> s.chores[c].Idle?) && s.pending == None ==>
            s.runs[r].disposals == 1)
  {
    FaithfulRun(start, events);
    var s := After(start, events);
    assert HeldAsSaid(s, r);
    if (e.Proceed? || e.CancelThrows?) && e.caller < |s.chores| {
      assert ChoreHolds(s, e.caller);
    }
  }

  /** A run left alone comes to its action and lets its source go. */
  lemma LeftAloneItRuns(s: World, r: nat)
    requires Faithful(s) && At(s, r, Quiet) && s.pending == Some(r)
    ensures var n := Step(Step(Step(Step(s, TimerFires(r)), Resume(r)), LetGo(r)), DisposeOwn(r));
      n.pending == None && At(n, r, Gone) && n.runs[r].ran == 1 && n.runs[r].disposals == 1
  {
    assert RunsAsItWaited(s, r) && HeldAsSaid(s, r);
  }

  /** A run put down in its wait ends without its action, and leaves its source to whoever put it down. */
  lemma ACancelledRunEnds(s: World, r: nat)
    requires Faithful(s) && At(s, r, Cancelled)
    ensures var n := Step(Step(s, Resume(r)), LetGo(r));
      At(n, r, Gone) && n.runs[r].ran == 0 && n.runs[r].disposals == s.runs[r].disposals && n.pending == s.pending
  {
    assert RunsAsItWaited(s, r) && HeldAsSaid(s, r);
  }

  /** A wait that is over but not yet resumed: the call that supersedes the run does not stop its action. */
  lemma AnElapsedRunStillRuns(s: World, c: nat, r: nat)
    requires Faithful(s) && At(s, r, Elapsed) && s.pending == Some(r) && c < |s.chores| && s.chores[c].Idle?
    ensures var called := Step(s, Call(c));
      var put := Step(Step(called, Proceed(c)), Proceed(c));
      var n := Step(put, Resume(r));
      put.runs[r].cancelled && put.runs[r].disposals == 1 && n.runs[r] == put.runs[r].(stage := Over, ran := 1)
  {
    assert RunsAsItWaited(s, r) && HeldAsSaid(s, r);
  }

  lemma {:induction false} AfterBoth(s: World, events: seq<Event>, more: seq<Event>)
    ensures After(s, events + more) == After(After(s, events), more)
    decreases |events|
  {
    hide Step;
    if events == [] {
      assert events + more == more;
    } else {
      assert (events + more)[1..] == events[1..] + more;
      AfterBoth(Step(s, events[0]), events[1..], more);
    }
  }

  lemma AfterThree(s: World, a: Event, b: Event, c: Event)
    ensures After(s, [a, b, c]) == Step(Step(Step(s, a), b), c)
  {
    hide Step;
    assert [a, b, c][1..] == [b, c] && [b, c][1..] == [c] && [c][1..] == [];
    assert After(s, [a, b, c]) == After(Step(s, a), [b, c]) == After(Step(Step(s, a), b), [c]);
  }

  lemma AfterFour(s: World, a: Event, b: Event, c: Event, d: Event)
    ensures After(s, [a, b, c, d]) == Step(Step(Step(Step(s, a), b), c), d)
  {
    hide Step;
    assert [a, b, c, d][1..] == [b, c, d];
    AfterThree(Step(s, a), b, c, d);
  }

  /** The first call of all, waited out and not yet resumed. */
  lemma AFirstCallElapses(start: World, c: nat)
    requires Fresh(start) && c < |start.chores|
    ensures var s := After(start, [Call(c), Proceed(c), TimerFires(0)]);
      At(s, 0, Elapsed) && s.pending == Some(0) && |s.chores| == |start.chores| && s.chores[c].Idle?
  {
    AfterThree(start, Call(c), Proceed(c), TimerFires(0));
    var called := Step(start, Call(c));
    assert called.runs == [Run(c, Installed, false, false, 0, 0, Slot)] && called.chores[c] == Starting(0);
    var waiting := Step(called, Proceed(c));
    assert At(waiting, 0, Quiet) && waiting.chores[c].Idle?;
  }

  /** Two calls, the second after the first's wait was over: the first, cancelled and disposed, runs its action. */
  lemma ASupersededActionRuns(start: World, c: nat)
    requires Fresh(start) && c < |start.chores|
    ensures var s := After(start, [Call(c), Proceed(c), TimerFires(0)] + [Call(c), Proceed(c), Proceed(c), Resume(0)]);
      |s.runs| == 2 && s.runs[0].cancelled && s.runs[0].disposals == 1 && s.runs[0].ran == 1
  {
    hide Step;
    var first := [Call(c), Proceed(c), TimerFires(0)];
    AfterBoth(start, first, [Call(c), Proceed(c), Proceed(c), Resume(0)]);
    AFirstCallElapses(start, c);
    FaithfulRun(start, first);
    var s := After(start, first);
    AfterFour(s, Call(c), Proceed(c), Proceed(c), Resume(0));
    AnElapsedRunStillRuns(s, c, 0);
    OneCallMore(start, first, c);
  }

  lemma OneCallMore(start: World, first: seq<Event>, c: nat)
    requires Fresh(start) && c < |start.chores| && first == [Call(c), Proceed(c), TimerFires(0)]
    ensures |After(start, first).runs| == 1
    ensures |Step(Step(Step(Step(After(start, first), Call(c)), Proceed(c)), Proceed(c)), Resume(0)).runs| == 2
  {
    AfterThree(start, Call(c), Proceed(c), TimerFires(0));
    AFirstCallElapses(start, c);
  }

  /** Two calls, and the second's cancellation of the first throws: the second's source is in the slot, the first's is
      disposed all the same, and neither action has run. */
  lemma AThrowBreaksOffTheCall(start: World, c: nat)
    requires Fresh(start) && c < |start.chores|
    ensures var s := After(start, [Call(c), Proceed(c)] + [Call(c), CancelThrows(c), Proceed(c)]);
      |s.runs| == 2 && At(s, 1, NeverStarted) && s.pending == Some(1) && c < |s.chores| && s.chores[c].Idle?
      && s.runs[1].ran == 0 && s.runs[0].ran == 0 && s.runs[0].disposals == 1
  {
    AfterBoth(start, [Call(c), Proceed(c)], [Call(c), CancelThrows(c), Proceed(c)]);
    var (called, waiting) := (Step(start, Call(c)), Step(Step(start, Call(c)), Proceed(c)));
    assert called.runs == [Run(c, Installed, false, false, 0, 0, Slot)] && called.chores[c] == Starting(0);
    assert waiting.runs == [Run(c, Quiet, false, false, 0, 0, Slot)] && waiting.pending == Some(0);
    assert [Call(c), Proceed(c)][1..] == [Proceed(c)] && [Proceed(c)][1..] == [];
    assert After(start, [Call(c), Proceed(c)]) == After(called, [Proceed(c)]) == waiting;
    AfterThree(waiting, Call(c), CancelThrows(c), Proceed(c));
    var again := Step(waiting, Call(c));
    assert again.chores[c] == Cancelling(0, 1) && |again.runs| == 2;
    var threw := Step(again, CancelThrows(c));
    assert threw.chores[c] == Disposing(0, 1, true);
  }
}
