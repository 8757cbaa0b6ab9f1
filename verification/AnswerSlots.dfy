/** LatestAnswer as the dispatcher uses it, one whole call after another: all that a screen can see of it is
    whether it is current and which run it would still accept. */
module AnswerSlots {
  import opened LatestAnswers
  import opened Wrappers

  /** `live` is the one run whose answer would be accepted. */
  datatype Slot = Slot(current: bool, live: Option<nat>) {
    /** The input moved on and an answer to it will be computed. */
    function Ask(): Slot { Slot(false, None) }

    /** The input moved on and is its own answer. */
    function Settle(): Slot { Slot(true, None) }

    /** A run starts, if there is anything to compute. */
    function Begin(run: nat): Slot { if current then this else Slot(false, Some(run)) }

    /** A run ends with something to show: on screen if it is the live one, dropped if it is not. */
    function Answer(run: nat): Slot { if live == Some(run) then Slot(true, None) else this }

    /** A run ends with nothing to show. */
    function Quit(run: nat): Slot { if live == Some(run) then Slot(current, None) else this }

    function Abandon(): Slot { Slot(current, None) }
  }

  const CURRENT := Slot(true, None)

  function SlotOf(a: Answer): Slot { Slot(a.IsCurrent(), a.running) }

  /** What holds between whole calls: a run that is not in the slot was put down or let go. */
  ghost predicate Tidy(a: Answer) {
    && a.answered <= a.asked
    && (a.running.Some? ==> a.running.value < |a.runs| && !a.IsCurrent())
    && (a.waiting.Some? ==> a.waiting.value < |a.signals|)
    && (forall r :: 0 <= r < |a.runs| ==> Settled(a, r))
  }

  predicate Settled(a: Answer, r: nat)
    requires r < |a.runs|
  {
    && a.runs[r].generation <= a.asked
    && (if a.running == Some(r) then a.runs[r].generation == a.asked && !a.runs[r].cancelled && a.runs[r].disposals == 0
        else a.runs[r].disposals == 1)
    && (a.runs[r].accepted && a.runs[r].generation == a.asked ==> a.IsCurrent())
  }

  /** What waking and raising leave as it was: everything but the signals and the count. */
  predicate SameBut(a: Answer, b: Answer) {
    && b.asked == a.asked && b.answered == a.answered && b.running == a.running && b.waiting == a.waiting
    && |b.signals| == |a.signals|
  }

  lemma FinishTells(a: Answer, w: Work)
    requires Sound(a, w) && w.cancel == None && w.dispose == None
    ensures SameBut(a, Finish(a, w)) && Finish(a, w).runs == a.runs
  {
    var (b, v) := Do(a, w);
    assert Finish(a, w) == if w == NO_WORK then a else Finish(b, v);
    assert v != NO_WORK ==> Finish(b, v) == Do(b, v).0;
  }

  lemma FinishDisposes(a: Answer, w: Work)
    requires Sound(a, w) && w.cancel == None
    ensures SameBut(a, Finish(a, w))
    ensures Finish(a, w).runs == if w.dispose == None then a.runs else
      var r := w.dispose.value;
      a.runs[r := a.runs[r].(disposals := a.runs[r].disposals + 1)]
  {
    if w.dispose == None {
      FinishTells(a, w);
    } else {
      var (b, v) := Do(a, w);
      FinishTells(b, v);
    }
  }

  lemma CancelledFirst(a: Answer, w: Work)
    requires Sound(a, w) && w.cancel.Some?
    ensures var (b, v) := Do(a, w);
      Sound(b, v) && SameBut(a, b) && v.cancel == None && v.dispose == w.dispose
      && b.runs == a.runs[w.cancel.value := a.runs[w.cancel.value].(cancelled := true)]
  {
  }

  /** A call that takes a run out of the slot puts it down. */
  lemma FinishPuts(a: Answer, w: Work)
    requires Sound(a, w) && w.cancel == w.dispose
    ensures SameBut(a, Finish(a, w))
    ensures Finish(a, w).runs == if w.cancel == None then a.runs else
      var r := w.cancel.value;
      a.runs[r := a.runs[r].(cancelled := true, disposals := a.runs[r].disposals + 1)]
  {
    if w.cancel == None {
      FinishDisposes(a, w);
    } else {
      var (b, v) := Do(a, w);
      CancelledFirst(a, w);
      FinishDisposes(b, v);
      assert Finish(a, w) == Finish(b, v);
      hide Do, Finish;
    }
  }

  lemma AskIsAsk(a: Answer)
    requires Tidy(a)
    ensures var b := Finish(Ask(a).0, Ask(a).1); Tidy(b) && SlotOf(b) == SlotOf(a).Ask()
  {
    FinishPuts(Ask(a).0, Ask(a).1);
    var b := Finish(Ask(a).0, Ask(a).1);
    forall r | 0 <= r < |b.runs| ensures Settled(b, r) {
      assert r < |a.runs| ==> Settled(a, r);
    }
  }

  lemma SettleIsSettle(a: Answer)
    requires Tidy(a)
    ensures var b := Finish(Settle(a).0, Settle(a).1); Tidy(b) && SlotOf(b) == SlotOf(a).Settle()
  {
    FinishPuts(Settle(a).0, Settle(a).1);
    var b := Finish(Settle(a).0, Settle(a).1);
    forall r | 0 <= r < |b.runs| ensures Settled(b, r) {
      assert r < |a.runs| ==> Settled(a, r);
    }
  }

  lemma BeginIsBegin(a: Answer)
    requires Tidy(a)
    ensures var b := Finish(Begin(a).0, Begin(a).1); Tidy(b) && SlotOf(b) == SlotOf(a).Begin(|a.runs|)
  {
    FinishPuts(Begin(a).0, Begin(a).1);
    var b := Finish(Begin(a).0, Begin(a).1);
    forall r | 0 <= r < |b.runs| ensures Settled(b, r) {
      assert r < |a.runs| ==> Settled(a, r);
    }
  }

  lemma AbandonIsAbandon(a: Answer)
    requires Tidy(a)
    ensures var b := Finish(Abandon(a).0, Abandon(a).1); Tidy(b) && SlotOf(b) == SlotOf(a).Abandon()
  {
    FinishPuts(Abandon(a).0, Abandon(a).1);
    var b := Finish(Abandon(a).0, Abandon(a).1);
    forall r | 0 <= r < |b.runs| ensures Settled(b, r) {
      assert r < |a.runs| ==> Settled(a, r);
    }
  }

  /** A run that is still out ends: accepted and let go if it is live, refused and let go if it was put down. */
  lemma AnswerIsAnswer(a: Answer, k: nat)
    requires Tidy(a) && k < |a.runs| && (a.running == Some(k) || a.runs[k].cancelled)
    ensures Accepts(a, k) <==> SlotOf(a).live == Some(k)
    ensures var c := Accept(a, k);
      var b := Finish(Release(c, k).0, Release(c, k).1);
      Tidy(b) && SlotOf(b) == SlotOf(a).Answer(k)
  {
    assert Settled(a, k);
    var c := Accept(a, k);
    FinishDisposes(Release(c, k).0, Release(c, k).1);
    var b := Finish(Release(c, k).0, Release(c, k).1);
    forall r | 0 <= r < |b.runs| ensures Settled(b, r) {
      assert Settled(a, r);
    }
  }

  lemma QuitIsQuit(a: Answer, k: nat)
    requires Tidy(a) && k < |a.runs| && (a.running == Some(k) || a.runs[k].cancelled)
    ensures var b := Finish(Release(a, k).0, Release(a, k).1); Tidy(b) && SlotOf(b) == SlotOf(a).Quit(k)
  {
    assert Settled(a, k);
    FinishDisposes(Release(a, k).0, Release(a, k).1);
    var b := Finish(Release(a, k).0, Release(a, k).1);
    forall r | 0 <= r < |b.runs| ensures Settled(b, r) {
      assert Settled(a, r);
    }
  }
}
