/** What the screen shows, over every run of AnswerThreads: whenever the input is current its own answer is on
    screen, an action that waited acts on that answer, and nobody waits for something that has happened. */
module AnswerFreshness {
  import opened AnswerThreads
  import opened LatestAnswers
  import opened Wrappers

  // --- The answer on screen ---

  /** The newest input is answered, or a run has already put its answer on screen and is about to say so. */
  ghost predicate Answered(s: World) { s.answer.IsCurrent() || exists r :: PutOnScreen(s, r) }

  predicate PutOnScreen(s: World, r: nat) {
    && r < |s.answer.runs| && r < |s.phases|
    && s.answer.runs[r].accepted && s.answer.runs[r].generation == s.answer.asked
    && (s.phases[r].Over? || s.phases[r].Released?)
  }

  ghost predicate Right(s: World) {
    && |s.phases| == |s.answer.runs|
    && s.answer.answered <= s.answer.asked
    && (forall r :: 0 <= r < |s.answer.runs| ==> s.answer.runs[r].generation <= s.answer.asked)
    && (forall r :: 0 <= r < |s.phases| ==> (s.phases[r].Computing? ==> !s.answer.runs[r].accepted))
    && (forall r :: 0 <= r < |s.phases| ==> (s.phases[r].Granted? ==> s.answer.runs[r].accepted))
    && (Answered(s) ==> s.shown == s.answer.asked)
  }

  /** An answer to an older input is put on screen only while the newest has no answer of its own. On the dispatcher
      no older answer ever is: an answer is put on screen in the turn that accepted it. */
  ghost predicate Harmless(s: World, act: Action) {
    act.ApplyRun? && InPhase(s, act.run, Granted) && s.answer.runs[act.run].generation != s.answer.asked ==>
      !Answered(s)
  }

  ghost predicate HarmlessRun(s: World, acts: seq<Action>)
    decreases |acts|
  {
    acts != [] ==> Harmless(s, acts[0]) && HarmlessRun(Step(s, acts[0]), acts[1..])
  }

  lemma OwnWorkStaysRight(s: World, t: nat)
    requires Right(s)
    ensures Right(Step(s, WorkOn(t)))
  {
    var n := Step(s, WorkOn(t));
    assert forall r :: PutOnScreen(n, r) ==> PutOnScreen(s, r);
  }

  lemma CallsStayRight(s: World, act: Action)
    requires Right(s) && IsCall(act)
    ensures Right(Step(s, act))
  {
    var n := Step(s, act);
    if act.ReleaseBy? {
      ReleaseStaysRight(s, act.t, act.run);
    } else if act.AskBy? || act.SettleBy? {
      assert s == n || forall r :: !PutOnScreen(n, r);
    } else {
      assert forall r :: PutOnScreen(n, r) ==> PutOnScreen(s, r);
    }
  }

  lemma ReleaseStaysRight(s: World, t: nat, run: nat)
    requires Right(s)
    ensures Right(Step(s, ReleaseBy(t, run)))
  {
    var n := Step(s, ReleaseBy(t, run));
    assert forall r :: PutOnScreen(n, r) ==> PutOnScreen(s, r);
    if Free(s, t) && InPhase(s, run, Over) && Answers(s.answer, run) {
      assert PutOnScreen(s, run);
    }
  }

  lemma RestStaysRight(s: World, act: Action)
    requires Right(s) && !IsCall(act) && !act.WorkOn? && !act.ApplyRun?
    ensures Right(Step(s, act))
  {
    var n := Step(s, act);
    assert forall r :: PutOnScreen(n, r) ==> PutOnScreen(s, r);
  }

  /** An answer put on screen leaves what is shown right exactly if it is the newest input's, or that one has none. */
  lemma ApplyStaysRightIff(s: World, run: nat)
    requires Right(s)
    ensures Right(Step(s, ApplyRun(run))) <==> Harmless(s, ApplyRun(run))
  {
    var n := Step(s, ApplyRun(run));
    if InPhase(s, run, Granted) {
      if s.answer.runs[run].generation != s.answer.asked {
        assert forall r :: PutOnScreen(n, r) <==> PutOnScreen(s, r);
      }
    }
  }

  lemma StepIsRightIff(s: World, act: Action)
    requires Right(s)
    ensures Right(Step(s, act)) <==> Harmless(s, act)
  {
    if IsCall(act) {
      CallsStayRight(s, act);
    } else if act.WorkOn? {
      OwnWorkStaysRight(s, act.t);
    } else if act.ApplyRun? {
      ApplyStaysRightIff(s, act.run);
    } else {
      RestStaysRight(s, act);
    }
  }

  lemma {:induction false} RightRun(s: World, acts: seq<Action>)
    requires Right(s) && HarmlessRun(s, acts)
    ensures Right(After(s, acts))
    decreases |acts|
  {
    hide Right, Harmless, Step;
    if acts != [] {
      StepIsRightIff(s, acts[0]);
      RightRun(Step(s, acts[0]), acts[1..]);
    }
  }

  ghost predicate RightThroughout(s: World, acts: seq<Action>) {
    forall k :: 0 <= k <= |acts| ==> Right(After(s, acts[..k]))
  }

  /** What is shown stays right at every state of a run exactly if no older answer is put on screen over the newest
      input's own. */
  lemma {:induction false} RightThroughoutIff(s: World, acts: seq<Action>)
    requires Right(s)
    ensures RightThroughout(s, acts) <==> HarmlessRun(s, acts)
    decreases |acts|
  {
    hide Right, Harmless, Step;
    if acts == [] {
      assert acts[..0] == [];
    } else {
      var n := Step(s, acts[0]);
      StepIsRightIff(s, acts[0]);
      ThroughoutOnward(s, acts);
      if Right(n) {
        RightThroughoutIff(n, acts[1..]);
      }
    }
  }

  /** Right throughout is right after the first step and throughout the rest. */
  lemma ThroughoutOnward(s: World, acts: seq<Action>)
    requires Right(s) && acts != []
    ensures RightThroughout(s, acts) <==>
            Right(Step(s, acts[0])) && RightThroughout(Step(s, acts[0]), acts[1..])
  {
    hide Right, Step;
    var n := Step(s, acts[0]);
    forall k | 1 <= k <= |acts| ensures After(s, acts[..k]) == After(n, acts[1..][..k - 1]) {
      assert acts[..k][1..] == acts[1..][..k - 1];
    }
    assert acts[1..][..0] == [];
    if RightThroughout(s, acts) {
      assert Right(After(s, acts[..1]));
      forall k | 0 <= k <= |acts| - 1 ensures Right(After(n, acts[1..][..k])) {
        assert Right(After(s, acts[..k + 1]));
      }
    }
    if Right(n) && RightThroughout(n, acts[1..]) {
      forall k | 0 <= k <= |acts| ensures Right(After(s, acts[..k])) {
        if k > 0 {
          assert Right(After(n, acts[1..][..k - 1]));
        } else {
          assert acts[..0] == [];
        }
      }
    }
  }

  lemma FreshIsRight(s: World)
    requires Fresh(s)
    ensures Right(s)
  {
  }

  // --- The dispatcher ---

  /** A run of the dispatcher: whoever accepts puts the answer on screen in the same turn, and nobody does otherwise. */
  predicate InTurns(acts: seq<Action>)
    decreases |acts|
  {
    acts == []
    || (if acts[0].AcceptRun? then |acts| == 1 || (acts[1] == ApplyRun(acts[0].run) && InTurns(acts[2..]))
        else !acts[0].ApplyRun? && InTurns(acts[1..]))
  }

  predicate NobodyGranted(s: World) { forall r :: 0 <= r < |s.phases| ==> !s.phases[r].Granted? }

  lemma NobodyGrantedStep(s: World, act: Action)
    requires NobodyGranted(s) && !act.AcceptRun?
    ensures NobodyGranted(Step(s, act))
  {
  }

  /** Accepted and put on screen in one turn: it is the newest input's, or it was refused. */
  lemma OneTurn(s: World, r: nat)
    requires NobodyGranted(s)
    ensures Harmless(s, AcceptRun(r)) && Harmless(Step(s, AcceptRun(r)), ApplyRun(r))
    ensures NobodyGranted(Step(Step(s, AcceptRun(r)), ApplyRun(r)))
  {
    hide Answered;
  }

  /** On the dispatcher no older answer is ever put on screen. */
  lemma {:induction false} TurnsAreHarmless(s: World, acts: seq<Action>)
    requires NobodyGranted(s) && InTurns(acts)
    ensures HarmlessRun(s, acts)
    decreases |acts|
  {
    hide Step, Harmless, NobodyGranted;
    if acts != [] {
      var n := Step(s, acts[0]);
      if acts[0].AcceptRun? {
        OneTurn(s, acts[0].run);
        if |acts| > 1 {
          assert acts[1..][1..] == acts[2..];
          TurnsAreHarmless(Step(n, acts[1]), acts[2..]);
        }
      } else {
        assert Harmless(s, acts[0]) by { OnlyAppliesHarm(s, acts[0]); }
        NobodyGrantedStep(s, acts[0]);
        TurnsAreHarmless(n, acts[1..]);
      }
    }
  }

  lemma OnlyAppliesHarm(s: World, act: Action)
    requires !act.ApplyRun?
    ensures Harmless(s, act)
  {
  }

  /** So there the promise holds with no condition. */
  lemma OnTheDispatcherWhatIsCurrentIsShown(start: World, acts: seq<Action>)
    requires Fresh(start) && InTurns(acts)
    ensures HarmlessRun(start, acts)
    ensures After(start, acts).answer.IsCurrent() ==> After(start, acts).shown == After(start, acts).answer.asked
  {
    TurnsAreHarmless(start, acts);
    WhatIsCurrentIsShown(start, acts);
  }

  // --- And everywhere else ---

  /** Whenever the input is current, its own answer (or its own settled value) is what is on screen. */
  lemma WhatIsCurrentIsShown(start: World, acts: seq<Action>)
    requires Fresh(start) && HarmlessRun(start, acts)
    ensures After(start, acts).answer.IsCurrent() ==> After(start, acts).shown == After(start, acts).answer.asked
  {
    FreshIsRight(start);
    RightRun(start, acts);
  }

  lemma {:induction false} AfterBoth(s: World, acts: seq<Action>, more: seq<Action>)
    ensures After(s, acts + more) == After(After(s, acts), more)
    decreases |acts|
  {
    hide Step;
    if acts == [] {
      assert acts + more == more;
    } else {
      assert (acts + more)[1..] == acts[1..] + more;
      AfterBoth(Step(s, acts[0]), acts[1..], more);
    }
  }

  lemma AfterThree(s: World, a: Action, b: Action, c: Action)
    ensures After(s, [a, b, c]) == Step(Step(Step(s, a), b), c)
  {
    hide Step;
    assert [a, b, c][1..] == [b, c] && [b, c][1..] == [c] && [c][1..] == [];
    assert After(s, [a, b, c]) == After(Step(s, a), [b, c]) == After(Step(Step(s, a), b), [c]);
  }

  function UnderWay(start: World): World {
    start.(answer := NEW_ANSWER.(asked := 1, running := Some(0),
                                 runs := [LatestAnswers.Run(1, false, false, 0, false)], raised := 1),
           phases := [Computing], flips := 1)
  }

  lemma ARunIsUnderWay(start: World)
    requires Fresh(start) && |start.work| >= 1
    ensures Step(Step(Step(start, AskBy(0)), WorkOn(0)), BeginBy(0)) == UnderWay(start)
  {
    var asked := Step(start, AskBy(0));
    assert asked.work[0] == Work(None, None, None, true);
    var told := Step(asked, WorkOn(0));
    assert told.work == start.work;
    var begun := Step(told, BeginBy(0));
    assert begun.work == start.work;
  }

  /** Accept on one thread, settle on another, apply on the first: current, and the older answer is on screen. */
  lemma AnAnswerAppliedLateIsShown(start: World)
    requires Fresh(start) && |start.work| >= 2
    ensures var s := After(start, [AskBy(0), WorkOn(0), BeginBy(0)] + [AcceptRun(0), SettleBy(1), ApplyRun(0)]);
      s.answer.IsCurrent() && s.shown == 1 && s.answer.asked == 2
  {
    AfterBoth(start, [AskBy(0), WorkOn(0), BeginBy(0)], [AcceptRun(0), SettleBy(1), ApplyRun(0)]);
    AfterThree(start, AskBy(0), WorkOn(0), BeginBy(0));
    hide After, Step, UnderWay;
    ARunIsUnderWay(start);
    AfterThree(UnderWay(start), AcceptRun(0), SettleBy(1), ApplyRun(0));
    AppliedAfterTheSettle(start);
  }

  lemma AppliedAfterTheSettle(start: World)
    requires Fresh(start) && |start.work| >= 2
    ensures var s := Step(Step(Step(UnderWay(start), AcceptRun(0)), SettleBy(1)), ApplyRun(0));
      s.answer.IsCurrent() && s.shown == 1 && s.answer.asked == 2
  {
    var accepted := Step(UnderWay(start), AcceptRun(0));
    assert accepted.phases == [Granted] && accepted.answer.runs[0].generation == 1;
    var settled := Step(accepted, SettleBy(1));
    assert settled.phases == [Granted] && settled.answer.runs == accepted.answer.runs;
  }

  /** An edit to be answered takes effect. */
  predicate Asks(s: World, act: Action) { act.AskBy? && Free(s, act.t) }

  /** The newest input gets its answer: settled by an edit, or by the end of a run accepted for it - abandoned since
      or not. */
  predicate GetsAnswered(s: World, act: Action) {
    || (act.SettleBy? && Free(s, act.t))
    || (act.ReleaseBy? && Free(s, act.t) && InPhase(s, act.run, Over)
        && s.answer.runs[act.run].accepted && s.answer.runs[act.run].generation == s.answer.asked)
  }

  /** After every edit to be answered, the newest input got its answer. */
  ghost predicate AnsweredSince(start: World, acts: seq<Action>) {
    forall k :: 0 <= k < |acts| && Asks(After(start, acts[..k]), acts[k]) ==> AnsweredAfter(start, acts, k)
  }

  ghost predicate AnsweredAfter(start: World, acts: seq<Action>, k: nat) {
    exists m :: k < m < |acts| && GetsAnswered(After(start, acts[..m]), acts[m])
  }

  lemma OneStepFlips(s: World, act: Action)
    requires s.answer.answered <= s.answer.asked
    ensures Step(s, act).answer.answered <= Step(s, act).answer.asked
    ensures Step(s, act).answer.IsCurrent() <==> GetsAnswered(s, act) || (s.answer.IsCurrent() && !Asks(s, act))
  {
  }

  /** The input is current exactly if, since the last edit to be answered, it was settled or a run accepted for it was
      let go; abandoning and everything else leaves it as it was. */
  lemma {:induction false} CurrentIff(start: World, acts: seq<Action>)
    requires Fresh(start)
    ensures After(start, acts).answer.answered <= After(start, acts).answer.asked
    ensures After(start, acts).answer.IsCurrent() <==> AnsweredSince(start, acts)
    decreases |acts|
  {
    hide Step, Asks, GetsAnswered;
    if acts != [] {
      var (init, last) := (acts[..|acts| - 1], acts[|acts| - 1]);
      var s := After(start, init);
      CurrentIff(start, init);
      OneStepFlips(s, last);
      AfterBoth(start, init, [last]);
      assert acts == init + [last] && [last][1..] == [];
      assert After(s, [last]) == Step(s, last);
      assert forall k :: 0 <= k < |acts| ==> acts[..k] == init[..k];
      LastStepAnswers(start, init, last);
    }
  }

  /** An answer after an edit was there before the last step, or is that step. */
  lemma AnsweredByNow(start: World, init: seq<Action>, last: Action, k: nat)
    requires k < |init|
    ensures AnsweredAfter(start, init + [last], k) <==>
            AnsweredAfter(start, init, k) || GetsAnswered(After(start, init), last)
  {
    hide Step, GetsAnswered, After;
    var acts := init + [last];
    assert forall m :: 0 <= m <= |init| ==> acts[..m] == init[..m];
    assert init[..|init|] == init;
    if GetsAnswered(After(start, init), last) {
      assert GetsAnswered(After(start, acts[..|init|]), acts[|init|]);
    }
    if AnsweredAfter(start, init, k) {
      var m :| k < m < |init| && GetsAnswered(After(start, init[..m]), init[m]);
      assert GetsAnswered(After(start, acts[..m]), acts[m]);
    }
  }

  lemma LastStepAnswers(start: World, init: seq<Action>, last: Action)
    ensures AnsweredSince(start, init + [last]) <==>
            GetsAnswered(After(start, init), last)
            || (AnsweredSince(start, init) && !Asks(After(start, init), last))
  {
    hide Step, Asks, GetsAnswered, After, AnsweredAfter;
    var acts := init + [last];
    assert forall m :: 0 <= m <= |init| ==> acts[..m] == init[..m];
    assert init[..|init|] == init && acts[|init|] == last;
    forall k | 0 <= k < |init|
      ensures AnsweredAfter(start, acts, k) <==>
              AnsweredAfter(start, init, k) || GetsAnswered(After(start, init), last)
    {
      AnsweredByNow(start, init, last, k);
    }
    NothingAfterTheLast(start, acts);
    NotBoth(After(start, init), last);
  }

  lemma NothingAfterTheLast(start: World, acts: seq<Action>)
    requires acts != []
    ensures !AnsweredAfter(start, acts, |acts| - 1)
  {
  }

  lemma NotBoth(s: World, act: Action)
    ensures !(Asks(s, act) && GetsAnswered(s, act))
  {
  }

  /** A run of the newest input that nothing put down answers it: granted, on screen, and current. */
  lemma ARunLeftAloneAnswers(s: World, t: nat, r: nat)
    requires Right(s) && Free(s, t) && InPhase(s, r, Computing) && Accepts(s.answer, r)
    ensures var n := Step(Step(Step(s, AcceptRun(r)), ApplyRun(r)), ReleaseBy(t, r));
      n.answer.IsCurrent() && n.shown == n.answer.asked == s.answer.asked
  {
  }

  /** A run that ends with nothing to show, and is let go, leaves the input as it was, and its source to its thread. */
  lemma ARunThatQuitsLeavesTheInput(s: World, t: nat, r: nat)
    requires Free(s, t) && InPhase(s, r, Computing) && !s.answer.runs[r].accepted && s.answer.running == Some(r)
    ensures var n := Step(Step(s, QuitRun(r)), ReleaseBy(t, r));
      && InPhase(n, r, Released) && n.answer == s.answer.(running := None)
      && n.work[t] == Work(None, Some(r), None, false) && n.shown == s.shown
  {
  }

  function Left(w: Work): nat {
    (if w.cancel.Some? then 1 else 0) + (if w.dispose.Some? then 1 else 0)
    + (if w.wake.Some? then 1 else 0) + (if w.raise then 1 else 0)
  }

  lemma OneLess(s: World, t: nat)
    requires t < |s.work| && Sound(s.answer, s.work[t])
    ensures var n := Step(s, WorkOn(t));
      && n.waiters == s.waiters && |n.work| == |s.work| && n.work == s.work[t := n.work[t]]
      && Sound(n.answer, n.work[t]) && Finish(n.answer, n.work[t]) == Finish(s.answer, s.work[t])
      && (Left(n.work[t]) == 0 || Left(n.work[t]) < Left(s.work[t]))
  {
  }

  /** A thread left alone finishes its call: what the class does in one go is what the machine does in steps. */
  lemma AThreadLeftAloneFinishes(s: World, t: nat)
    requires Owned(s) && t < |s.work|
    ensures var n := Step(Step(Step(Step(s, WorkOn(t)), WorkOn(t)), WorkOn(t)), WorkOn(t));
      n.answer == Finish(s.answer, s.work[t]) && n.work == s.work[t := NO_WORK] && n.waiters == s.waiters
  {
    hide Owned, Step, Sound;
    AllSound(s);
    OneLess(s, t);
    var b := Step(s, WorkOn(t));
    OneLess(b, t);
    var c := Step(b, WorkOn(t));
    OneLess(c, t);
    var d := Step(c, WorkOn(t));
    OneLess(d, t);
    assert Left(Step(d, WorkOn(t)).work[t]) == 0;
  }

  lemma AllSound(s: World)
    requires Owned(s)
    ensures forall t :: 0 <= t < |s.work| ==> Sound(s.answer, s.work[t])
  {
  }

  // --- An action that waits ---

  /** The moments at which an action's wait may come to an end: a look, its last look, and its time running out. */
  predicate LooksNow(s: World, act: Action, w: nat) {
    && w < |s.waiters|
    && if act.TimeOut? then act.w == w && s.waiters[w].Waiting?
       else (act.LookBy? || act.LookLast?) && act.w == w && s.waiters[w].Looking?
  }

  /** A wait says "current" exactly if it looks, or its time runs out, while the input is current; it says "not current"
      exactly if its time is out - at its last look, or while it waits - and the input is not; and a look with time left
      at an input that is not current waits for the next signal. */
  lemma WhatAWaitSays(s: World, act: Action, w: nat)
    requires w < |s.waiters|
    ensures |Step(s, act).waiters| == |s.waiters|
    ensures var n := Step(s, act).waiters[w];
      && (n == Back(true) && s.waiters[w] != Back(true) <==> LooksNow(s, act, w) && s.answer.IsCurrent())
      && (n == Back(false) && s.waiters[w] != Back(false) <==>
            LooksNow(s, act, w) && !act.LookBy? && !s.answer.IsCurrent())
      && (act.LookBy? && LooksNow(s, act, w) && !s.answer.IsCurrent() ==>
            n.Waiting? && Step(s, act).answer.waiting == Some(n.signal))
  {
    hide Answered;
  }

  /** The wait of an action says "current" only with the newest input's own answer on screen. */
  lemma AWaitEndsWithTheNewestAnswer(start: World, acts: seq<Action>, act: Action, w: nat)
    requires Fresh(start) && HarmlessRun(start, acts) && w < |start.waiters|
    ensures |After(start, acts).waiters| == |start.waiters|
    ensures var s := After(start, acts);
      var n := Step(s, act);
      s.waiters[w] != Back(true) && n.waiters[w] == Back(true) ==>
        n.answer.IsCurrent() && n.shown == n.answer.asked
  {
    FreshIsRight(start);
    RightRun(start, acts);
    SameWaiters(start, acts);
  }

  lemma {:induction false} SameWaiters(s: World, acts: seq<Action>)
    ensures |After(s, acts).waiters| == |s.waiters|
    decreases |acts|
  {
    if acts != [] {
      SameWaiters(Step(s, acts[0]), acts[1..]);
    }
  }

  /** A signal that is set, still to be handed to whoever answers, in a thread's hands, or lost to a throw. */
  ghost predicate Reached(s: World, g: nat) {
    && g < |s.answer.signals|
    && (|| s.answer.signals[g]
        || s.answer.waiting == Some(g)
        || g in s.answer.lostWakes
        || exists t :: WillWake(s, t, g))
  }

  predicate WillWake(s: World, t: nat, g: nat) { t < |s.work| && s.work[t].wake == Some(g) }

  ghost predicate NobodyForgotten(s: World) {
    && s.answer.answered <= s.answer.asked
    && (s.answer.waiting.Some? ==> !s.answer.IsCurrent() && s.answer.waiting.value < |s.answer.signals|)
    && (forall w :: 0 <= w < |s.waiters| && s.waiters[w].Waiting? ==> Reached(s, s.waiters[w].signal))
  }

  /** What a call does with the waiters: leave them, or take them out of the slot into its own thread's hands. */
  predicate Passes(s: World, a: Answer, w: Work) {
    && a.signals == s.answer.signals && a.lostWakes == s.answer.lostWakes && a.answered <= a.asked
    && (|| (a.waiting == s.answer.waiting && w.wake == None && (a.waiting.Some? ==> !a.IsCurrent()))
        || (a.waiting == None && w.wake == s.answer.waiting))
  }

  lemma CallForgetsNobody(s: World, n: World, t: nat, a: Answer, w: Work)
    requires NobodyForgotten(s) && Free(s, t) && Passes(s, a, w)
    requires n.answer == a && n.work == s.work[t := w] && n.waiters == s.waiters
    ensures NobodyForgotten(n)
  {
    forall v | 0 <= v < |n.waiters| && n.waiters[v].Waiting? ensures Reached(n, n.waiters[v].signal) {
      var g := n.waiters[v].signal;
      assert Reached(s, g);
      if exists u :: WillWake(s, u, g) {
        var u :| WillWake(s, u, g);
        assert WillWake(n, u, g);
      } else if s.answer.waiting == Some(g) && a.waiting == None {
        assert WillWake(n, t, g);
      }
    }
  }

  lemma CallsForgetNobody(s: World, act: Action)
    requires NobodyForgotten(s) && IsCall(act)
    ensures NobodyForgotten(Step(s, act))
  {
    var n := Step(s, act);
    match act
    case AskBy(t) => if Free(s, t) { CallForgetsNobody(s, n, t, Ask(s.answer).0, Ask(s.answer).1); }
    case SettleBy(t) => if Free(s, t) { CallForgetsNobody(s, n, t, Settle(s.answer).0, Settle(s.answer).1); }
    case BeginBy(t) => if Free(s, t) { CallForgetsNobody(s, n, t, Begin(s.answer).0, Begin(s.answer).1); }
    case AbandonBy(t) => if Free(s, t) { CallForgetsNobody(s, n, t, Abandon(s.answer).0, Abandon(s.answer).1); }
    case ReleaseBy(t, r) =>
      if Free(s, t) && InPhase(s, r, Over) {
        CallForgetsNobody(s, n, t, Release(s.answer, r).0, Release(s.answer, r).1);
      }
  }

  lemma WorkForgetsNobody(s: World, t: nat)
    requires NobodyForgotten(s)
    ensures NobodyForgotten(Step(s, WorkOn(t)))
  {
    var n := Step(s, WorkOn(t));
    forall v | 0 <= v < |n.waiters| && n.waiters[v].Waiting? ensures Reached(n, n.waiters[v].signal) {
      var g := n.waiters[v].signal;
      assert Reached(s, g);
      if exists u :: WillWake(s, u, g) {
        var u :| WillWake(s, u, g);
        assert u != t ==> WillWake(n, u, g);
        assert u == t && t < |n.work| && n.work[t].wake == Some(g) ==> WillWake(n, t, g);
      }
    }
  }

  lemma RestForgetsNobody(s: World, act: Action)
    requires NobodyForgotten(s) && !IsCall(act) && !act.WorkOn?
    ensures NobodyForgotten(Step(s, act))
  {
    var n := Step(s, act);
    forall v | 0 <= v < |n.waiters| && n.waiters[v].Waiting? ensures Reached(n, n.waiters[v].signal) {
      var g := n.waiters[v].signal;
      if v < |s.waiters| && s.waiters[v] == n.waiters[v] {
        assert Reached(s, g);
        if exists u :: WillWake(s, u, g) {
          var u :| WillWake(s, u, g);
          assert WillWake(n, u, g);
        }
      }
    }
  }

  lemma {:induction false} NobodyIsForgotten(s: World, acts: seq<Action>)
    requires NobodyForgotten(s)
    ensures NobodyForgotten(After(s, acts))
    decreases |acts|
  {
    if acts != [] {
      if IsCall(acts[0]) {
        CallsForgetNobody(s, acts[0]);
      } else if acts[0].WorkOn? {
        WorkForgetsNobody(s, acts[0].t);
      } else {
        RestForgetsNobody(s, acts[0]);
      }
      NobodyIsForgotten(Step(s, acts[0]), acts[1..]);
    }
  }

  // --- A signal lost to a throw ---

  /** A signal is in one place at most, and not set while it is: with whoever will answer, or in one thread's hands;
      and a lost one is in none and not set. */
  ghost predicate SignalsKept(s: World) {
    && (s.answer.waiting.Some? ==>
          && s.answer.waiting.value < |s.answer.signals| && !s.answer.signals[s.answer.waiting.value]
          && s.answer.waiting.value !in s.answer.lostWakes)
    && (forall t :: 0 <= t < |s.work| && s.work[t].wake.Some? ==>
          && s.work[t].wake.value < |s.answer.signals| && s.work[t].wake != s.answer.waiting
          && !s.answer.signals[s.work[t].wake.value] && s.work[t].wake.value !in s.answer.lostWakes)
    && (forall t, u :: 0 <= t < |s.work| && 0 <= u < |s.work| && t != u && s.work[t].wake.Some? ==>
          s.work[t].wake != s.work[u].wake)
    && (forall g :: g in s.answer.lostWakes ==> g < |s.answer.signals| && !s.answer.signals[g])
  }

  lemma CallKeepsSignals(s: World, n: World, t: nat, a: Answer, w: Work)
    requires SignalsKept(s) && Free(s, t) && Passes(s, a, w)
    requires n.answer == a && n.work == s.work[t := w]
    ensures SignalsKept(n)
  {
  }

  lemma CallsKeepSignals(s: World, act: Action)
    requires SignalsKept(s) && IsCall(act) && s.answer.answered <= s.answer.asked
    requires s.answer.waiting.Some? ==> !s.answer.IsCurrent()
    ensures SignalsKept(Step(s, act))
  {
    var n := Step(s, act);
    match act
    case AskBy(t) => if Free(s, t) { CallKeepsSignals(s, n, t, Ask(s.answer).0, Ask(s.answer).1); }
    case SettleBy(t) => if Free(s, t) { CallKeepsSignals(s, n, t, Settle(s.answer).0, Settle(s.answer).1); }
    case BeginBy(t) => if Free(s, t) { CallKeepsSignals(s, n, t, Begin(s.answer).0, Begin(s.answer).1); }
    case AbandonBy(t) => if Free(s, t) { CallKeepsSignals(s, n, t, Abandon(s.answer).0, Abandon(s.answer).1); }
    case ReleaseBy(t, r) =>
      if Free(s, t) && InPhase(s, r, Over) {
        CallKeepsSignals(s, n, t, Release(s.answer, r).0, Release(s.answer, r).1);
      }
  }

  /** What a piece of work may do to the signal it holds: keep it, set it, or lose it. */
  predicate MovesSignal(a: Answer, w: Work, b: Answer, rest: Work) {
    && b.waiting == a.waiting && |b.signals| == |a.signals|
    && (if rest.wake == w.wake then b.signals == a.signals && b.lostWakes == a.lostWakes
        else
          && w.wake.Some? && rest.wake == None && w.wake.value < |a.signals|
          && (|| (b.signals == a.signals[w.wake.value := true] && b.lostWakes == a.lostWakes)
              || (b.signals == a.signals && b.lostWakes == a.lostWakes + {w.wake.value})))
  }

  lemma DoMovesSignal(a: Answer, w: Work)
    requires Sound(a, w)
    ensures MovesSignal(a, w, Do(a, w).0, Do(a, w).1)
  {
  }

  lemma WorkKeepsSignals(s: World, t: nat)
    requires SignalsKept(s)
    ensures SignalsKept(Step(s, WorkOn(t)))
  {
    if t < |s.work| && Sound(s.answer, s.work[t]) {
      DoMovesSignal(s.answer, s.work[t]);
      MovedSignalsKept(s, t, Do(s.answer, s.work[t]).0, Do(s.answer, s.work[t]).1);
    }
  }

  lemma MovedSignalsKept(s: World, t: nat, a: Answer, w: Work)
    requires SignalsKept(s) && t < |s.work| && MovesSignal(s.answer, s.work[t], a, w)
    ensures SignalsKept(s.(answer := a, work := s.work[t := w]))
  {
  }

  lemma RestKeepsSignals(s: World, act: Action)
    requires SignalsKept(s) && !IsCall(act) && !act.WorkOn?
    ensures SignalsKept(Step(s, act))
  {
  }

  lemma {:induction false} SignalsAreKept(s: World, acts: seq<Action>)
    requires SignalsKept(s) && NobodyForgotten(s)
    ensures SignalsKept(After(s, acts))
    decreases |acts|
  {
    hide SignalsKept, Step;
    if acts != [] {
      assert NobodyForgotten(Step(s, acts[0])) by {
        NobodyIsForgotten(s, acts[..1]);
        assert acts[..1][1..] == [];
        assert After(s, acts[..1]) == Step(s, acts[0]);
      }
      if IsCall(acts[0]) {
        CallsKeepSignals(s, acts[0]);
      } else if acts[0].WorkOn? {
        WorkKeepsSignals(s, acts[0].t);
      } else {
        RestKeepsSignals(s, acts[0]);
      }
      SignalsAreKept(Step(s, acts[0]), acts[1..]);
    }
  }

  /** Once the threads are done, whoever still waits for an answered input can wake up exactly if no throwing
      cancellation callback lost its signal. */
  lemma WakesUnlessLost(start: World, acts: seq<Action>, w: nat)
    requires Fresh(start)
    ensures var s := After(start, acts);
      Quiet(s) && s.answer.IsCurrent() && Waits(s, w) ==>
        (Step(s, WakeUp(w)).waiters[w] == Looking <==> s.waiters[w].signal !in s.answer.lostWakes)
  {
    NobodyIsForgotten(start, acts);
    SignalsAreKept(start, acts);
    var s := After(start, acts);
    if Quiet(s) && s.answer.IsCurrent() && Waits(s, w) {
      assert Reached(s, s.waiters[w].signal);
    }
  }

  /** And then its wait ends well: it wakes, looks, and says "current" with the newest input's own answer on screen. */
  lemma AWaitIsAnswered(start: World, acts: seq<Action>, w: nat)
    requires Fresh(start) && HarmlessRun(start, acts)
    ensures var s := After(start, acts);
      Quiet(s) && s.answer.IsCurrent() && Waits(s, w) && s.waiters[w].signal !in s.answer.lostWakes ==>
        var n := Step(Step(s, WakeUp(w)), LookBy(w));
        w < |n.waiters| && n.waiters[w] == Back(true) && n.answer.IsCurrent() && n.shown == n.answer.asked
  {
    var s := After(start, acts);
    WakesUnlessLost(start, acts, w);
    WhatIsCurrentIsShown(start, acts);
    if Quiet(s) && s.answer.IsCurrent() && Waits(s, w) && s.waiters[w].signal !in s.answer.lostWakes {
      var woken := Step(s, WakeUp(w));
      WhatAWaitSays(woken, LookBy(w), w);
    }
  }

  // --- The change event ---

  function Raises(work: seq<Work>): nat {
    if work == [] then 0 else (if work[0].raise then 1 else 0) + Raises(work[1..])
  }

  lemma {:induction false} RaisesAt(work: seq<Work>, t: nat, w: Work)
    requires t < |work|
    ensures Raises(work[t := w]) == Raises(work) - (if work[t].raise then 1 else 0) + (if w.raise then 1 else 0)
    decreases t
  {
    if t == 0 {
      assert work[t := w][1..] == work[1..];
    } else {
      assert work[t := w][1..] == work[1..][t - 1 := w];
      RaisesAt(work[1..], t - 1, w);
    }
  }

  lemma {:induction false} QuietRaisesNothing(work: seq<Work>)
    requires forall t :: 0 <= t < |work| ==> work[t] == NO_WORK
    ensures Raises(work) == 0
  {
    if work != [] {
      QuietRaisesNothing(work[1..]);
    }
  }

  predicate EventsAddUp(s: World) {
    && s.answer.raised + s.answer.lostRaises + Raises(s.work) == s.flips
    && (s.answer.IsCurrent() <==> s.flips % 2 == 0)
    && s.answer.answered <= s.answer.asked
  }

  /** What a call owes the event: one raise where it flipped the input, none where it did not. */
  predicate Owes(s: World, a: Answer, w: Work) {
    && a.raised == s.answer.raised && a.lostRaises == s.answer.lostRaises && a.answered <= a.asked
    && (w.raise <==> s.answer.IsCurrent() != a.IsCurrent())
  }

  lemma CallAddsUp(s: World, n: World, t: nat, a: Answer, w: Work)
    requires EventsAddUp(s) && Free(s, t) && Owes(s, a, w)
    requires n.answer == a && n.work == s.work[t := w] && n.flips == s.flips + Flip(s.answer, a)
    ensures EventsAddUp(n)
  {
    RaisesAt(s.work, t, w);
  }

  lemma CallsAddUp(s: World, act: Action)
    requires EventsAddUp(s) && IsCall(act)
    ensures EventsAddUp(Step(s, act))
  {
    hide Raises;
    var n := Step(s, act);
    match act
    case AskBy(t) => if Free(s, t) { CallAddsUp(s, n, t, Ask(s.answer).0, Ask(s.answer).1); }
    case SettleBy(t) => if Free(s, t) { CallAddsUp(s, n, t, Settle(s.answer).0, Settle(s.answer).1); }
    case BeginBy(t) => if Free(s, t) { CallAddsUp(s, n, t, Begin(s.answer).0, Begin(s.answer).1); }
    case AbandonBy(t) => if Free(s, t) { CallAddsUp(s, n, t, Abandon(s.answer).0, Abandon(s.answer).1); }
    case ReleaseBy(t, r) =>
      if Free(s, t) && InPhase(s, r, Over) {
        CallAddsUp(s, n, t, Release(s.answer, r).0, Release(s.answer, r).1);
      }
  }

  lemma RestAddsUp(s: World, act: Action)
    requires EventsAddUp(s) && !IsCall(act)
    ensures EventsAddUp(Step(s, act))
  {
    hide Raises;
    if act.WorkOn? && act.t < |s.work| && Sound(s.answer, s.work[act.t]) {
      RaisesAt(s.work, act.t, Do(s.answer, s.work[act.t]).1);
    }
  }

  lemma {:induction false} EventsRun(s: World, acts: seq<Action>)
    requires EventsAddUp(s)
    ensures EventsAddUp(After(s, acts))
    decreases |acts|
  {
    if acts != [] {
      if IsCall(acts[0]) {
        CallsAddUp(s, acts[0]);
      } else {
        RestAddsUp(s, acts[0]);
      }
      EventsRun(Step(s, acts[0]), acts[1..]);
    }
  }

  /** Once the threads are done, the event was raised once a flip but for those a throw lost: so where none was
      lost, whoever counts its raises knows whether the input is current. */
  lemma OneEventAFlip(start: World, acts: seq<Action>)
    requires Fresh(start)
    ensures var s := After(start, acts);
      Quiet(s) ==>
        && s.answer.raised + s.answer.lostRaises == s.flips
        && (s.answer.lostRaises == 0 ==> (s.answer.IsCurrent() <==> s.answer.raised % 2 == 0))
  {
    QuietRaisesNothing(start.work);
    EventsRun(start, acts);
    if Quiet(After(start, acts)) {
      QuietRaisesNothing(After(start, acts).work);
    }
  }

  // --- What a throwing callback costs ---

  predicate NothingThrows(s: World) {
    && s.answer.lostRaises == 0 && s.answer.lostWakes == {}
    && forall r :: 0 <= r < |s.answer.runs| ==> !s.answer.runs[r].throws
  }

  /** Where no cancellation callback throws, no raise and no wake-up is ever lost. */
  lemma {:induction false} NothingIsLostWithoutAThrow(s: World, acts: seq<Action>)
    requires NothingThrows(s) && forall i :: 0 <= i < |acts| ==> !acts[i].ThrowFrom?
    ensures NothingThrows(After(s, acts))
    decreases |acts|
  {
    if acts != [] {
      NothingIsLostWithoutAThrow(Step(s, acts[0]), acts[1..]);
    }
  }

  /** Where one does, settling the input leaves an action waiting for an input that is already answered. */
  lemma AThrowLeavesAnActionWaiting(start: World)
    requires Fresh(start) && |start.work| >= 1 && |start.waiters| >= 1
    ensures var s := After(start, ([AskBy(0), WorkOn(0), BeginBy(0)] + [ThrowFrom(0), WaitFor(0), LookBy(0)])
                                  + [SettleBy(0), WorkOn(0), WorkOn(0)]);
      Quiet(s) && s.answer.IsCurrent() && Waits(s, 0) && Step(s, WakeUp(0)) == s
  {
    AfterBoth(start, [AskBy(0), WorkOn(0), BeginBy(0)] + [ThrowFrom(0), WaitFor(0), LookBy(0)],
              [SettleBy(0), WorkOn(0), WorkOn(0)]);
    AfterBoth(start, [AskBy(0), WorkOn(0), BeginBy(0)], [ThrowFrom(0), WaitFor(0), LookBy(0)]);
    AfterThree(start, AskBy(0), WorkOn(0), BeginBy(0));
    ARunIsUnderWay(start);
    AfterThree(UnderWay(start), ThrowFrom(0), WaitFor(0), LookBy(0));
    AnActionWaits(start);
    AfterThree(WithAWaiter(start), SettleBy(0), WorkOn(0), WorkOn(0));
    SettlingThrows(start);
  }

  function WithAWaiter(start: World): World
    requires |start.waiters| >= 1
  {
    var s := UnderWay(start);
    s.(answer := s.answer.(waiting := Some(0), signals := [false],
                           runs := [LatestAnswers.Run(1, false, false, 0, true)]),
       waiters := start.waiters[0 := Waiting(0)])
  }

  lemma AnActionWaits(start: World)
    requires |start.waiters| >= 1 && !Waits(start, 0)
    ensures Step(Step(Step(UnderWay(start), ThrowFrom(0)), WaitFor(0)), LookBy(0)) == WithAWaiter(start)
  {
    var s := Step(Step(Step(UnderWay(start), ThrowFrom(0)), WaitFor(0)), LookBy(0));
    assert s.waiters == start.waiters[0 := Waiting(0)];
    assert s.answer == WithAWaiter(start).answer;
  }

  lemma SettlingThrows(start: World)
    requires Fresh(start) && |start.work| >= 1 && |start.waiters| >= 1
    ensures var s := Step(Step(Step(WithAWaiter(start), SettleBy(0)), WorkOn(0)), WorkOn(0));
      Quiet(s) && s.answer.IsCurrent() && Waits(s, 0) && Step(s, WakeUp(0)) == s
  {
    var settled := Step(WithAWaiter(start), SettleBy(0));
    assert settled.work[0] == Work(Some(0), Some(0), Some(0), true);
    var thrown := Step(settled, WorkOn(0));
    assert thrown.work[0] == Work(None, Some(0), None, false);
    var put := Step(thrown, WorkOn(0));
    assert put.work == start.work;
  }
}
