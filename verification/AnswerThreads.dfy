/** LatestAnswer used from any number of threads at once: every interleaving of what its calls do under the
    lock with what they do after it, of runs, of waiting actions and of callbacks that throw. */
module AnswerThreads {
  import opened LatestAnswers
  import opened Wrappers

  /** Where a run stands between its ticket and its release: `ask`, then `answer` if accepted. */
  datatype Phase = Computing | Granted | Over | Released

  /** An action that waits for the screen to be current; `Back` is what its wait said. */
  datatype Waiter = Away | Looking | Waiting(signal: nat) | Back(current: bool)

  /** `shown` is the input whose answer stands on screen, `work` what each thread is left to do, and
      `flips` how often the input became current or stopped being it. */
  datatype World = World(
    answer: Answer,
    work: seq<Work>,
    phases: seq<Phase>,
    waiters: seq<Waiter>,
    shown: nat,
    flips: nat)

  datatype Action =
    | AskBy(t: nat)
    | SettleBy(t: nat)
    | BeginBy(t: nat)
    | AbandonBy(t: nat)
    | ReleaseBy(t: nat, run: nat)
    | WorkOn(t: nat)
    | AcceptRun(run: nat)
    | ApplyRun(run: nat)
    | QuitRun(run: nat)
    | ThrowFrom(run: nat)
    | WaitFor(w: nat)
    | LookBy(w: nat)
    | LookLast(w: nat)
    | WakeUp(w: nat)
    | TimeOut(w: nat)

  function Flip(was: Answer, now: Answer): nat { if was.IsCurrent() == now.IsCurrent() then 0 else 1 }

  /** What a call leaves: the state it made, and its thread's share of the work. */
  function Called(s: World, t: nat, a: Answer, w: Work): World
    requires t < |s.work|
  {
    s.(answer := a, work := s.work[t := w], flips := s.flips + Flip(s.answer, a))
  }

  predicate Free(s: World, t: nat) { t < |s.work| && s.work[t] == NO_WORK }

  predicate InPhase(s: World, run: nat, p: Phase) {
    run < |s.phases| && run < |s.answer.runs| && s.phases[run] == p
  }

  predicate Waits(s: World, w: nat) { w < |s.waiters| && s.waiters[w].Waiting? }

  /** One step; an action that cannot be taken where things stand changes nothing. */
  function Step(s: World, act: Action): World {
    match act
    case AskBy(t) => if Free(s, t) then Called(s, t, Ask(s.answer).0, Ask(s.answer).1) else s
    case SettleBy(t) =>
      if Free(s, t) then Called(s, t, Settle(s.answer).0, Settle(s.answer).1).(shown := s.answer.asked + 1) else s
    case BeginBy(t) =>
      if Free(s, t) then
        var (a, w, ticket) := Begin(s.answer);
        Called(s, t, a, w).(phases := if ticket.Some? then s.phases + [Computing] else s.phases)
      else s
    case AbandonBy(t) => if Free(s, t) then Called(s, t, Abandon(s.answer).0, Abandon(s.answer).1) else s
    case ReleaseBy(t, r) =>
      if Free(s, t) && InPhase(s, r, Over) then
        Called(s, t, Release(s.answer, r).0, Release(s.answer, r).1).(phases := s.phases[r := Released])
      else s
    case WorkOn(t) =>
      if t < |s.work| && Sound(s.answer, s.work[t]) then
        var (a, w) := Do(s.answer, s.work[t]);
        s.(answer := a, work := s.work[t := w])
      else s
    case AcceptRun(r) =>
      if InPhase(s, r, Computing) then
        s.(answer := Accept(s.answer, r), phases := s.phases[r := if Accepts(s.answer, r) then Granted else Over])
      else s
    case ApplyRun(r) =>
      if InPhase(s, r, Granted) then s.(shown := s.answer.runs[r].generation, phases := s.phases[r := Over]) else s
    case QuitRun(r) => if InPhase(s, r, Computing) then s.(phases := s.phases[r := Over]) else s
    case ThrowFrom(r) =>
      if r < |s.answer.runs| then
        s.(answer := s.answer.(runs := s.answer.runs[r := s.answer.runs[r].(throws := true)]))
      else s
    case WaitFor(w) => if w < |s.waiters| && !Waits(s, w) then s.(waiters := s.waiters[w := Looking]) else s
    case LookBy(w) =>
      if w < |s.waiters| && s.waiters[w].Looking? then
        var (a, signal) := Look(s.answer);
        s.(answer := a, waiters := s.waiters[w := if signal.Some? then Waiting(signal.value) else Back(true)])
      else s
    case LookLast(w) =>
      // The look after which no time is left: it makes the signal and waits for nothing.
      if w < |s.waiters| && s.waiters[w].Looking? then
        s.(answer := Look(s.answer).0, waiters := s.waiters[w := Back(Look(s.answer).1.None?)])
      else s
    case WakeUp(w) =>
      if Waits(s, w) && s.waiters[w].signal < |s.answer.signals| && s.answer.signals[s.waiters[w].signal] then
        s.(waiters := s.waiters[w := Looking])
      else s
    case TimeOut(w) => if Waits(s, w) then s.(waiters := s.waiters[w := Back(s.answer.IsCurrent())]) else s
  }

  function After(s: World, acts: seq<Action>): World
    decreases |acts|
  {
    if acts == [] then s else After(Step(s, acts[0]), acts[1..])
  }

  /** The start: nothing asked, nothing running, and `shown` the input nothing was asked about. */
  predicate Fresh(s: World) {
    && s.answer == NEW_ANSWER && s.phases == [] && s.shown == 0 && s.flips == 0
    && (forall t :: 0 <= t < |s.work| ==> s.work[t] == NO_WORK)
    && (forall w :: 0 <= w < |s.waiters| ==> s.waiters[w].Away?)
  }

  // --- Who owns a source ---

  predicate Holds(s: World, t: nat, run: nat)
    requires t < |s.work|
  {
    s.work[t].dispose == Some(run)
  }

  /** Each source is in the slot, in one thread's hands or disposed once; nobody else can touch it. */
  ghost predicate Owned(s: World) {
    && |s.phases| == |s.answer.runs|
    && (s.answer.waiting.Some? ==> s.answer.waiting.value < |s.answer.signals|)
    && (forall t :: 0 <= t < |s.work| ==> Sound(s.answer, s.work[t]))
    && (s.answer.running.Some? ==>
          var r := s.answer.running.value;
          r < |s.answer.runs| && s.answer.runs[r].disposals == 0 && !s.answer.runs[r].cancelled)
    && (forall t :: 0 <= t < |s.work| && s.work[t].dispose.Some? ==>
          s.answer.running != s.work[t].dispose && s.answer.runs[s.work[t].dispose.value].disposals == 0)
    && (forall t, u :: 0 <= t < |s.work| && 0 <= u < |s.work| && t != u && s.work[t].dispose.Some? ==>
          s.work[t].dispose != s.work[u].dispose)
    && (forall t :: 0 <= t < |s.work| && s.work[t].cancel.Some? ==>
          s.work[t].cancel == s.work[t].dispose && !s.answer.runs[s.work[t].cancel.value].cancelled)
    && (forall r :: 0 <= r < |s.answer.runs| ==> Kept(s, r))
  }

  /** The source of a run is disposed, or someone is there to dispose it. */
  ghost predicate Kept(s: World, r: nat)
    requires r < |s.answer.runs|
  {
    if s.answer.runs[r].disposals == 0 then
      s.answer.running == Some(r) || exists t :: 0 <= t < |s.work| && Holds(s, t, r)
    else s.answer.runs[r].disposals == 1
  }

  /** What a call may leave: the source it takes out of the slot goes to its own thread, a new run to the slot. */
  predicate HandsOver(s: World, a: Answer, w: Work) {
    && Sound(a, w) && |s.answer.runs| <= |a.runs| <= |s.answer.runs| + 1 && a.signals == s.answer.signals
    && (a.waiting == None || a.waiting == s.answer.waiting)
    && a.runs[..|s.answer.runs|] == s.answer.runs
    && w.dispose == (if a.running == s.answer.running then None else s.answer.running)
    && (w.cancel == None || w.cancel == w.dispose)
    && (a.running == None || a.running == s.answer.running || a.running == Some(|s.answer.runs|))
    && (if |a.runs| == |s.answer.runs| then a.running != Some(|s.answer.runs|)
        else a.running == Some(|s.answer.runs|) && a.runs[|s.answer.runs|].disposals == 0
             && !a.runs[|s.answer.runs|].cancelled)
  }

  lemma CallKeepsOwners(s: World, n: World, t: nat, a: Answer, w: Work)
    requires Owned(s) && Free(s, t) && HandsOver(s, a, w)
    requires n.answer == a && n.work == s.work[t := w] && |n.phases| == |a.runs|
    ensures Owned(n)
  {
    assert forall r :: 0 <= r < |s.answer.runs| ==> a.runs[r] == s.answer.runs[r] by {
      assert forall r :: 0 <= r < |s.answer.runs| ==> a.runs[..|s.answer.runs|][r] == s.answer.runs[r];
    }
    forall r | 0 <= r < |n.answer.runs| ensures Kept(n, r) {
      assert r < |s.answer.runs| ==> Kept(s, r);
      if r < |s.answer.runs| && s.answer.runs[r].disposals == 0 {
        if s.answer.running == Some(r) {
          assert a.running == Some(r) || Holds(n, t, r);
        } else {
          var u :| 0 <= u < |s.work| && Holds(s, u, r);
          assert Holds(n, u, r);
        }
      }
    }
  }

  /** What a piece of work may do to the sources: cancel the one it holds, once, or dispose it. */
  predicate Works(a: Answer, w: Work, b: Answer, rest: Work) {
    && |b.runs| == |a.runs| && |b.signals| == |a.signals| && b.running == a.running && b.waiting == a.waiting
    && (forall r :: 0 <= r < |a.runs| && Some(r) != w.dispose ==> b.runs[r] == a.runs[r])
    && (rest.dispose == w.dispose || rest.dispose == None)
    && (rest.cancel == None || (rest.cancel == w.cancel && b.runs == a.runs))
    && (rest.wake == None || rest.wake == w.wake)
    && (w.dispose.Some? && w.dispose.value < |a.runs| ==>
          b.runs[w.dispose.value].disposals == a.runs[w.dispose.value].disposals + if rest.dispose == None then 1 else 0)
  }

  lemma DoWorks(a: Answer, w: Work)
    requires Sound(a, w) && (w.cancel == None || w.cancel == w.dispose)
    ensures Works(a, w, Do(a, w).0, Do(a, w).1)
  {
  }

  lemma WorkKeepsOwners(s: World, t: nat, a: Answer, w: Work)
    requires Owned(s) && t < |s.work| && Works(s.answer, s.work[t], a, w)
    ensures Owned(s.(answer := a, work := s.work[t := w]))
  {
    var n := s.(answer := a, work := s.work[t := w]);
    forall r | 0 <= r < |n.answer.runs| ensures Kept(n, r) {
      assert Kept(s, r);
      if a.runs[r].disposals == 0 && a.running != Some(r) {
        var u :| 0 <= u < |s.work| && Holds(s, u, r);
        assert Holds(n, u, r);
      }
    }
  }

  /** What moves no source: the slot, the threads' work and every source as they were. */
  predicate SameSources(s: World, n: World) {
    && n.work == s.work && n.answer.running == s.answer.running && |n.phases| == |s.phases|
    && |n.answer.runs| == |s.answer.runs|
    && (forall r :: 0 <= r < |s.answer.runs| ==>
          n.answer.runs[r].disposals == s.answer.runs[r].disposals
          && n.answer.runs[r].cancelled == s.answer.runs[r].cancelled)
    && |s.answer.signals| <= |n.answer.signals|
    && (n.answer.waiting == s.answer.waiting
        || (n.answer.waiting.Some? && n.answer.waiting.value < |n.answer.signals|))
  }

  lemma SameSourcesSameOwners(s: World, n: World)
    requires Owned(s) && SameSources(s, n)
    ensures Owned(n)
  {
    forall r | 0 <= r < |n.answer.runs| ensures Kept(n, r) {
      assert Kept(s, r);
      if n.answer.runs[r].disposals == 0 && n.answer.running != Some(r) {
        var u :| 0 <= u < |s.work| && Holds(s, u, r);
        assert Holds(n, u, r);
      }
    }
  }

  predicate IsCall(act: Action) { act.AskBy? || act.SettleBy? || act.BeginBy? || act.AbandonBy? || act.ReleaseBy? }

  lemma EditsKeepOwners(s: World, act: Action)
    requires Owned(s) && (act.AskBy? || act.SettleBy? || act.AbandonBy?)
    ensures Owned(Step(s, act))
  {
    var n := Step(s, act);
    match act
    case AskBy(t) => if Free(s, t) { CallKeepsOwners(s, n, t, Ask(s.answer).0, Ask(s.answer).1); }
    case SettleBy(t) => if Free(s, t) { CallKeepsOwners(s, n, t, Settle(s.answer).0, Settle(s.answer).1); }
    case AbandonBy(t) => if Free(s, t) { CallKeepsOwners(s, n, t, Abandon(s.answer).0, Abandon(s.answer).1); }
  }

  lemma CallsKeepOwners(s: World, act: Action)
    requires Owned(s) && IsCall(act)
    ensures Owned(Step(s, act))
  {
    match act
    case BeginBy(t) => BeginKeepsOwners(s, t);
    case ReleaseBy(t, r) => ReleaseKeepsOwners(s, t, r);
    case _ => EditsKeepOwners(s, act);
  }

  lemma BeginKeepsOwners(s: World, t: nat)
    requires Owned(s)
    ensures Owned(Step(s, BeginBy(t)))
  {
    if Free(s, t) {
      CallKeepsOwners(s, Step(s, BeginBy(t)), t, Begin(s.answer).0, Begin(s.answer).1);
    }
  }

  lemma ReleaseKeepsOwners(s: World, t: nat, r: nat)
    requires Owned(s)
    ensures Owned(Step(s, ReleaseBy(t, r)))
  {
    if Free(s, t) && InPhase(s, r, Over) {
      CallKeepsOwners(s, Step(s, ReleaseBy(t, r)), t, Release(s.answer, r).0, Release(s.answer, r).1);
    }
  }

  lemma RestMovesNoSource(s: World, act: Action)
    requires Owned(s) && !IsCall(act) && !act.WorkOn?
    ensures SameSources(s, Step(s, act))
  {
  }

  lemma OwnedStep(s: World, act: Action)
    requires Owned(s)
    ensures Owned(Step(s, act))
  {
    if IsCall(act) {
      CallsKeepOwners(s, act);
    } else if act.WorkOn? {
      if act.t < |s.work| {
        DoWorks(s.answer, s.work[act.t]);
        WorkKeepsOwners(s, act.t, Do(s.answer, s.work[act.t]).0, Do(s.answer, s.work[act.t]).1);
      }
    } else {
      RestMovesNoSource(s, act);
      SameSourcesSameOwners(s, Step(s, act));
    }
  }

  // --- Over whole runs ---

  predicate Quiet(s: World) { forall t :: 0 <= t < |s.work| ==> s.work[t] == NO_WORK }

  lemma {:induction false} OwnedRun(s: World, acts: seq<Action>)
    requires Owned(s)
    ensures Owned(After(s, acts))
    decreases |acts|
  {
    if acts != [] {
      OwnedStep(s, acts[0]);
      OwnedRun(Step(s, acts[0]), acts[1..]);
    }
  }

  /** A source is touched by the work at hand: cancelled, or disposed. */
  predicate Touches(w: Work, r: nat) { w.cancel == Some(r) || w.dispose == Some(r) }

  /** Nobody is about to touch a disposed source, or one that another thread or the slot holds. */
  predicate TouchedByOneAlone(s: World) {
    && (forall t, r :: 0 <= t < |s.work| && 0 <= r < |s.answer.runs| && Touches(s.work[t], r) ==>
          s.answer.runs[r].disposals == 0 && s.answer.running != Some(r))
    && (forall t, u, r ::
          0 <= t < |s.work| && 0 <= u < |s.work| && t != u && 0 <= r < |s.answer.runs| && Touches(s.work[t], r) ==>
            !Touches(s.work[u], r))
  }

  predicate DisposedOnceAtMost(s: World) {
    forall r :: 0 <= r < |s.answer.runs| ==> s.answer.runs[r].disposals <= 1
  }

  predicate AllDisposedButTheSlot(s: World) {
    forall r :: 0 <= r < |s.answer.runs| ==>
      s.answer.runs[r].disposals == if s.answer.running == Some(r) then 0 else 1
  }

  lemma OwnedIsTouchedByOneAlone(s: World)
    requires Owned(s)
    ensures TouchedByOneAlone(s)
  {
  }

  lemma OwnedIsDisposedOnceAtMost(s: World)
    requires Owned(s)
    ensures DisposedOnceAtMost(s)
  {
    forall r | 0 <= r < |s.answer.runs| ensures s.answer.runs[r].disposals <= 1 {
      assert Kept(s, r);
    }
  }

  lemma QuietKeepsOnlyTheSlot(s: World)
    requires Owned(s) && Quiet(s)
    ensures AllDisposedButTheSlot(s)
  {
    forall r | 0 <= r < |s.answer.runs|
      ensures s.answer.runs[r].disposals == if s.answer.running == Some(r) then 0 else 1
    {
      assert Kept(s, r);
    }
  }

  /** However the threads interleave and whatever throws: a source is disposed at most once and touched by one
      party alone, and once the threads are done every source but the one in the slot is disposed. */
  lemma EverySourceHasOneOwner(start: World, acts: seq<Action>)
    requires Fresh(start)
    ensures TouchedByOneAlone(After(start, acts))
    ensures DisposedOnceAtMost(After(start, acts))
    ensures Quiet(After(start, acts)) ==> AllDisposedButTheSlot(After(start, acts))
  {
    hide TouchedByOneAlone, DisposedOnceAtMost, AllDisposedButTheSlot, Step;
    OwnedRun(start, acts);
    var s := After(start, acts);
    OwnedIsTouchedByOneAlone(s);
    OwnedIsDisposedOnceAtMost(s);
    if Quiet(s) {
      QuietKeepsOnlyTheSlot(s);
    }
  }

  // --- Who is still computing ---

  predicate WillCancel(s: World, t: nat, r: nat) { t < |s.work| && s.work[t].cancel == Some(r) }

  /** A run not in the slot any more has been cancelled, is about to be, or has let go of itself. */
  ghost predicate PutDown(s: World, r: nat)
    requires r < |s.answer.runs| && r < |s.phases|
  {
    || s.answer.running == Some(r)
    || s.answer.runs[r].cancelled
    || s.phases[r].Released?
    || exists t :: WillCancel(s, t, r)
  }

  /** Only the newest ticket's run, for the newest input, is left to compute. */
  ghost predicate OnlyTheNewestComputes(s: World) {
    && |s.phases| == |s.answer.runs|
    && (s.answer.running.Some? ==>
          var r := s.answer.running.value;
          r + 1 == |s.answer.runs| && s.answer.runs[r].generation == s.answer.asked)
    && (forall r :: 0 <= r < |s.answer.runs| ==> PutDown(s, r))
  }

  /** A call supersedes: the run it takes out of the slot it cancels, or that run has just ended. */
  predicate Supersedes(s: World, n: World, t: nat, w: Work)
    requires t < |s.work|
  {
    && n.work == s.work[t := w] && s.work[t].cancel == None
    && |s.answer.runs| <= |n.answer.runs| && |n.phases| == |n.answer.runs| && |s.phases| == |s.answer.runs|
    && (forall r :: 0 <= r < |s.answer.runs| ==>
          n.answer.runs[r] == s.answer.runs[r] && (s.phases[r].Released? ==> n.phases[r].Released?))
    && (forall r :: |s.answer.runs| <= r < |n.answer.runs| ==> n.answer.running == Some(r))
    && (forall r :: 0 <= r < |s.answer.runs| && s.answer.running == Some(r) ==>
          n.answer.running == Some(r) || w.cancel == Some(r) || n.phases[r].Released?)
  }

  lemma CallSupersedes(s: World, n: World, t: nat, w: Work)
    requires OnlyTheNewestComputes(s) && t < |s.work| && Supersedes(s, n, t, w)
    ensures forall r :: 0 <= r < |n.answer.runs| ==> PutDown(n, r)
  {
    forall r | 0 <= r < |n.answer.runs| ensures PutDown(n, r) {
      if r < |s.answer.runs| {
        assert PutDown(s, r);
        if exists u :: WillCancel(s, u, r) {
          var u :| WillCancel(s, u, r);
          assert WillCancel(n, u, r);
        } else if s.answer.running == Some(r) && w.cancel == Some(r) {
          assert WillCancel(n, t, r);
        }
      }
    }
  }

  lemma CallsKeepTheNewest(s: World, act: Action)
    requires OnlyTheNewestComputes(s) && IsCall(act)
    ensures OnlyTheNewestComputes(Step(s, act))
  {
    var n := Step(s, act);
    match act
    case AskBy(t) => if Free(s, t) { CallSupersedes(s, n, t, Ask(s.answer).1); }
    case SettleBy(t) => if Free(s, t) { CallSupersedes(s, n, t, Settle(s.answer).1); }
    case BeginBy(t) => if Free(s, t) { CallSupersedes(s, n, t, Begin(s.answer).1); }
    case AbandonBy(t) => if Free(s, t) { CallSupersedes(s, n, t, Abandon(s.answer).1); }
    case ReleaseBy(t, r) =>
      if Free(s, t) && InPhase(s, r, Over) { CallSupersedes(s, n, t, Release(s.answer, r).1); }
  }

  lemma RestKeepsTheNewest(s: World, act: Action)
    requires OnlyTheNewestComputes(s) && !IsCall(act)
    ensures OnlyTheNewestComputes(Step(s, act))
  {
    var n := Step(s, act);
    forall r | 0 <= r < |n.answer.runs| ensures PutDown(n, r) {
      assert PutDown(s, r);
      if exists u :: WillCancel(s, u, r) {
        var u :| WillCancel(s, u, r);
        assert n.answer.runs[r].cancelled || WillCancel(n, u, r);
      }
    }
  }

  lemma {:induction false} OnlyTheNewestRun(s: World, acts: seq<Action>)
    requires OnlyTheNewestComputes(s)
    ensures OnlyTheNewestComputes(After(s, acts))
    decreases |acts|
  {
    hide Step, OnlyTheNewestComputes;
    if acts != [] {
      if IsCall(acts[0]) {
        CallsKeepTheNewest(s, acts[0]);
      } else {
        RestKeepsTheNewest(s, acts[0]);
      }
      OnlyTheNewestRun(Step(s, acts[0]), acts[1..]);
    }
  }

  /** Once the threads are done, every run but the newest ticket's, and that one if its input is no longer the
      newest or it was abandoned, has been cancelled or has ended by itself. */
  lemma EverySupersededRunIsCancelled(start: World, acts: seq<Action>, r: nat)
    requires Fresh(start) && r < |After(start, acts).answer.runs|
    ensures var s := After(start, acts);
      r < |s.phases|
      && (Quiet(s) && !s.answer.runs[r].cancelled && !s.phases[r].Released? ==>
            s.answer.running == Some(r) && r + 1 == |s.answer.runs|
            && s.answer.runs[r].generation == s.answer.asked)
  {
    OnlyTheNewestRun(start, acts);
    assert PutDown(After(start, acts), r);
  }
}
