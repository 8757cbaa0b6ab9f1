/** The class itself (gui/ChronoMock.App/LatestAnswer.cs), as one thread drives it: its fields, its tickets,
    sources and waiters' signals, each call tied to the state and work LatestAnswers says it makes. */
module LatestAnswerClass {
  import opened LatestAnswers
  import opened Wrappers

  /** A cancellation source: touched by nobody once it is disposed. */
  class Source {
    var cancelled: bool
    var disposals: nat
    var throws: bool

    constructor ()
      ensures !cancelled && disposals == 0 && !throws
    {
      cancelled, disposals, throws := false, 0, false;
    }

    method Cancel() returns (threw: bool)
      requires disposals == 0
      modifies `cancelled
      ensures cancelled && threw == throws
    {
      cancelled := true;
      threw := throws;
    }

    method Dispose()
      requires disposals == 0
      modifies `disposals
      ensures disposals == 1
    {
      disposals := disposals + 1;
    }
  }

  class Ticket {
    const generation: nat
    const source: Source
    var accepted: bool

    constructor (generation: nat, source: Source)
      ensures this.generation == generation && this.source == source && !accepted
    {
      this.generation, this.source, accepted := generation, source, false;
    }

    ghost function View(): Run
      reads this, source
    {
      Run(generation, accepted, source.cancelled, source.disposals, source.throws)
    }
  }

  class Signal {
    var isSet: bool

    constructor ()
      ensures !isSet
    {
      isSet := false;
    }
  }

  class LatestAnswer {
    var asked: nat
    var answered: nat
    var running: Source?
    var waiting: Signal?
    var raised: nat
    ghost var tickets: seq<Ticket>
    ghost var signals: seq<Signal>
    ghost var view: Answer

    ghost function Sources(): set<Source>
      reads this
    {
      set t | t in tickets :: t.source
    }

    /** No two tickets are one, no two share a source, no two signals are one. */
    ghost predicate Apart()
      reads this
    {
      && (forall i, j :: 0 <= i < j < |tickets| ==>
            tickets[i] != tickets[j] && tickets[i].source != tickets[j].source)
      && (forall i, j :: 0 <= i < j < |signals| ==> signals[i] != signals[j])
    }

    /** The slots hold what the view says, and the slot's source has not been disposed. */
    ghost predicate Slots()
      requires |tickets| == |view.runs| && |signals| == |view.signals|
      reads this
    {
      && (match view.running
          case None => running == null
          case Some(r) => r < |tickets| && running == tickets[r].source && view.runs[r].disposals == 0)
      && (match view.waiting
          case None => waiting == null
          case Some(g) => g < |signals| && waiting == signals[g])
    }

    ghost predicate Valid()
      reads this, tickets, Sources(), signals
    {
      && asked == view.asked && answered == view.answered && raised == view.raised
      && |tickets| == |view.runs| && |signals| == |view.signals|
      && Apart() && Slots()
      && (forall k :: 0 <= k < |tickets| ==> tickets[k].View() == view.runs[k])
      && (forall k :: 0 <= k < |signals| ==> signals[k].isSet == view.signals[k])
    }

    constructor ()
      ensures Valid() && view == NEW_ANSWER && tickets == [] && signals == []
    {
      asked, answered, running, waiting, raised := 0, 0, null, null, 0;
      tickets, signals, view := [], [], NEW_ANSWER;
    }

    method IsCurrent() returns (current: bool)
      requires Valid()
      ensures current == view.IsCurrent()
    {
      current := answered == asked;
    }

    /** What a cancellation moves of the view: its run, and what a throw keeps from happening. */
    static lemma CancelMoves(a: Answer, w: Work)
      requires Sound(a, w) && w.cancel.Some?
      ensures var (b, r) := (Do(a, w).0, w.cancel.value);
        b == a.(runs := a.runs[r := a.runs[r].(cancelled := true)],
                lostRaises := b.lostRaises, lostWakes := b.lostWakes)
    {
    }

    /** A source is one ticket's. */
    lemma OneTicket(k: nat)
      requires Apart() && k < |tickets|
      ensures forall j :: 0 <= j < |tickets| && j != k ==> tickets[j].source != tickets[k].source
    {
    }

    /** The four things a call does once it has let go of the lock, each the next of its work. */
    method CancelNext(previous: Source, ghost w: Work) returns (threw: bool)
      requires Valid() && Sound(view, w) && w.cancel.Some? && previous == tickets[w.cancel.value].source
      requires previous.disposals == 0
      modifies `view, previous`cancelled
      ensures Valid() && view == Do(old(view), w).0 && threw == previous.throws
    {
      CancelMoves(view, w);
      OneTicket(w.cancel.value);
      hide Do;
      threw := previous.Cancel();
      view := Do(view, w).0;
    }

    method DisposeNext(previous: Source, ghost w: Work)
      requires Valid() && Sound(view, w) && w.cancel == None && w.dispose.Some?
      requires previous == tickets[w.dispose.value].source && previous.disposals == 0 && view.running != w.dispose
      modifies `view, previous`disposals
      ensures Valid() && view == Do(old(view), w).0
    {
      previous.Dispose();
      view := Do(view, w).0;
    }

    method WakeNext(waking: Signal, ghost w: Work)
      requires Valid() && Sound(view, w) && w.cancel == None && w.dispose == None && w.wake.Some?
      requires waking == signals[w.wake.value]
      modifies `view, waking
      ensures Valid() && view == Do(old(view), w).0
    {
      waking.isSet := true;
      view := Do(view, w).0;
    }

    method RaiseNext(ghost w: Work)
      requires Valid() && w == NO_WORK.(raise := true)
      modifies `view, `raised
      ensures Valid() && view == Do(old(view), w).0
    {
      raised := raised + 1;
      view := Do(view, w).0;
    }

    /** `Put`: cancel, then dispose, even where a callback throws out of the cancellation. */
    method Put(previous: Source?, ghost w: Work) returns (threw: bool, ghost left: Work)
      requires Valid() && Sound(view, w) && w.cancel == w.dispose && (w.cancel.Some? ==> view.running != w.cancel)
      requires if previous == null then w.cancel == None
               else w.cancel.Some? && previous == tickets[w.cancel.value].source && previous.disposals == 0
      modifies `view, previous
      ensures Valid() && Sound(view, left) && Finish(view, left) == Finish(old(view), w)
      ensures threw == Throws(old(view), w)
      ensures left == if threw then NO_WORK else w.(cancel := None, dispose := None)
    {
      threw, left := false, w;
      if previous != null {
        threw := CancelNext(previous, w);
        left := Do(old(view), w).1;
        DisposeNext(previous, left);
        left := left.(dispose := None);
      }
    }

    /** The waiters woken and the event raised, where the call says so. */
    method Tell(waking: Signal?, flipped: bool, ghost w: Work)
      requires Valid() && Sound(view, w) && w.cancel == None && w.dispose == None && w.raise == flipped
      requires if waking == null then w.wake == None else w.wake.Some? && waking == signals[w.wake.value]
      modifies `view, `raised, waking
      ensures Valid() && view == Finish(old(view), w)
    {
      ghost var left := w;
      if waking != null {
        WakeNext(waking, left);
        left := left.(wake := None);
      }
      if flipped {
        RaiseNext(left);
      }
    }

    /** What `Change` does under the lock. */
    method MoveOn(isAnswered: bool) returns (previous: Source?, waking: Signal?, flipped: bool)
      requires Valid()
      modifies `asked, `answered, `waiting, `running, `view
      ensures Valid() && previous == old(running)
      ensures var (a, w) := LatestAnswers.Change(old(view), isAnswered);
        && view == a && flipped == w.raise
        && (if w.wake == None then waking == null else w.wake.value < |signals| && waking == signals[w.wake.value])
    {
      flipped := (answered == asked) != isAnswered;
      waking := null;
      asked := asked + 1;
      if isAnswered {
        answered := asked;
        waking := waiting;
        waiting := null;
      }
      previous := running;
      running := null;
      view := LatestAnswers.Change(view, isAnswered).0;
    }

    method Change(isAnswered: bool) returns (threw: bool)
      requires Valid()
      modifies this, Sources(), signals
      ensures Valid() && tickets == old(tickets) && signals == old(signals)
      ensures var (a, w) := LatestAnswers.Change(old(view), isAnswered);
        view == Finish(a, w) && threw == Throws(a, w)
    {
      ghost var w := LatestAnswers.Change(view, isAnswered).1;
      var previous, waking, flipped := MoveOn(isAnswered);
      ghost var left;
      threw, left := Put(previous, w);
      hide Finish, Throws, Do;
      if !threw {
        Tell(waking, flipped, left);
      }
    }

    method Ask() returns (threw: bool)
      requires Valid()
      modifies this, Sources(), signals
      ensures Valid() && tickets == old(tickets) && signals == old(signals)
      ensures var (a, w) := LatestAnswers.Ask(old(view)); view == Finish(a, w) && threw == Throws(a, w)
    {
      threw := Change(false);
    }

    method Settle() returns (threw: bool)
      requires Valid()
      modifies this, Sources(), signals
      ensures Valid() && tickets == old(tickets) && signals == old(signals)
      ensures var (a, w) := LatestAnswers.Settle(old(view)); view == Finish(a, w) && threw == Throws(a, w)
    {
      threw := Change(true);
    }

    method Abandon() returns (threw: bool)
      requires Valid()
      modifies this, Sources()
      ensures Valid() && tickets == old(tickets) && signals == old(signals)
      ensures var (a, w) := LatestAnswers.Abandon(old(view)); view == Finish(a, w) && threw == Throws(a, w)
    {
      ghost var w := LatestAnswers.Abandon(view).1;
      var previous := running;
      running := null;
      view := LatestAnswers.Abandon(view).0;
      ghost var left;
      threw, left := Put(previous, w);
    }

    method Accept(ticket: Ticket, ghost k: nat) returns (accepted: bool)
      requires Valid() && k < |tickets| && ticket == tickets[k]
      modifies `view, ticket
      ensures Valid() && view == LatestAnswers.Accept(old(view), k) && accepted == Accepts(old(view), k)
    {
      if ticket.generation != asked || ticket.source.cancelled {
        return false;
      }
      ticket.accepted := true;
      view := LatestAnswers.Accept(view, k);
      return true;
    }

    /** What `Begin` does under the lock, where there is something to compute. */
    method TakeSlot() returns (made: Ticket, previous: Source?)
      requires Valid() && !view.IsCurrent()
      modifies `running, `tickets, `view
      ensures Valid() && fresh(made) && fresh(made.source) && tickets == old(tickets) + [made]
      ensures previous == old(running) && view == LatestAnswers.Begin(old(view)).0
    {
      previous := running;
      running := new Source();
      made := new Ticket(asked, running);
      tickets := tickets + [made];
      view := LatestAnswers.Begin(view).0;
    }

    /** A ticket for the newest input; none where it is answered, and none where putting down the run before
        it throws, with the new source left in the slot. */
    method Begin() returns (ticket: Ticket?, threw: bool)
      requires Valid()
      modifies this, Sources()
      ensures Valid() && signals == old(signals)
      ensures old(view).IsCurrent() ==> ticket == null && !threw && view == old(view) && tickets == old(tickets)
      ensures !old(view).IsCurrent() ==>
        var (a, w, k) := LatestAnswers.Begin(old(view));
        && view == Finish(a, w) && threw == Throws(a, w)
        && |tickets| > 0 && old(tickets) == tickets[..|tickets| - 1] && fresh(tickets[|tickets| - 1])
        && k == Some(|tickets| - 1) && ticket == if threw then null else tickets[|tickets| - 1]
    {
      ticket, threw := null, false;
      if answered == asked {
        return;
      }
      ghost var w := LatestAnswers.Begin(view).1;
      var made, previous := TakeSlot();
      ghost var left;
      threw, left := Put(previous, w);
      ticket := if threw then null else made;
    }

    /** What `Release` does under the lock. */
    method LetGo(ticket: Ticket, ghost k: nat) returns (waking: Signal?, flipped: bool, dispose: bool)
      requires Valid() && k < |tickets| && ticket == tickets[k]
      modifies `answered, `waiting, `running, `view
      ensures Valid()
      ensures var (a, w) := LatestAnswers.Release(old(view), k);
        && view == a && flipped == w.raise && dispose == w.dispose.Some?
        && (if w.wake == None then waking == null else w.wake.value < |signals| && waking == signals[w.wake.value])
    {
      hide Finish, Throws;
      OneTicket(k);
      waking, flipped, dispose := null, false, false;
      if ticket.accepted && ticket.generation == asked && answered != asked {
        answered := asked;
        waking := waiting;
        waiting := null;
        flipped := true;
      }
      if running == ticket.source {
        running := null;
        dispose := true;
      }
      view := LatestAnswers.Release(view, k).0;
    }

    method Release(ticket: Ticket, ghost k: nat)
      requires Valid() && k < |tickets| && ticket == tickets[k]
      modifies this, Sources(), signals
      ensures Valid() && tickets == old(tickets) && signals == old(signals)
      ensures var (a, w) := LatestAnswers.Release(old(view), k); view == Finish(a, w)
    {
      ghost var w := LatestAnswers.Release(view, k).1;
      var waking, flipped, dispose := LetGo(ticket, k);
      if dispose {
        DisposeNext(ticket.source, w);
        w := w.(dispose := None);
      }
      Tell(waking, flipped, w);
    }

    /** What runs for the ticket registers a callback that throws. */
    method Register(ticket: Ticket, ghost k: nat)
      requires Valid() && k < |tickets| && ticket == tickets[k]
      modifies `view, ticket.source`throws
      ensures Valid() && view == old(view).(runs := old(view).runs[k := old(view).runs[k].(throws := true)])
    {
      ticket.source.throws := true;
      view := view.(runs := view.runs[k := view.runs[k].(throws := true)]);
    }

    /** One look of `WhenCurrentAsync`: the signal to wait on, made where nobody waits yet. */
    method Look() returns (next: Signal?)
      requires Valid()
      modifies `waiting, `signals, `view
      ensures Valid() && tickets == old(tickets) && old(signals) <= signals
      ensures var (a, g) := LatestAnswers.Look(old(view));
        && view == a
        && (if g == None then next == null else g.value < |signals| && next == signals[g.value])
    {
      next := null;
      if answered != asked {
        if waiting == null {
          waiting := new Signal();
          signals := signals + [waiting];
        }
        next := waiting;
        view := LatestAnswers.Look(view).0;
      }
    }
  }
}
