/** The debouncer itself (gui/ChronoMock.App/Calc/Debounce.cs): one slot, and the two methods that hand a source
    on, as the dispatcher calls them. */
module DebounceClass {
  import opened LatestAnswerClass

  class Debounce {
    var pending: Source?
    ghost var made: set<Source>

    /** The source in the slot is live; every other one ever made has been disposed. */
    ghost predicate Valid()
      reads this, made
    {
      && (pending != null ==> pending in made)
      && forall s :: s in made ==> s.disposals == (if s == pending then 0 else 1) && (s == pending ==> !s.cancelled)
    }

    constructor ()
      ensures Valid() && pending == null && made == {}
    {
      pending, made := null, {};
    }

    /** The synchronous half of `RunAsync`: install the new run and put down the one it replaces. */
    method RunAsync() returns (mine: Source, threw: bool)
      requires Valid()
      modifies this, made
      ensures Valid() && fresh(mine) && pending == mine && made == old(made) + {mine}
      ensures old(pending) != null ==> old(pending).cancelled && threw == old(pending.throws)
      ensures old(pending) == null ==> !threw
      ensures forall s :: s in old(made) && s != old(pending) ==>
        s.cancelled == old(s.cancelled) && s.disposals == old(s.disposals)
    {
      mine := new Source();
      var previous := pending;
      pending := mine;
      made := made + {mine};
      threw := false;
      if previous != null {
        threw := previous.Cancel();
        previous.Dispose();
      }
    }

    method Release(mine: Source)
      requires Valid() && mine in made
      modifies this, mine
      ensures Valid() && made == old(made) && mine.disposals == 1
      ensures pending == if old(pending) == mine then null else old(pending)
    {
      if pending == mine {
        pending := null;
        mine.Dispose();
      }
    }

    /** The other half: the quiet period is over, or was cancelled; the action runs only if it was not. */
    method Resume(mine: Source, cancelled: bool) returns (ran: bool)
      requires Valid() && mine in made && (cancelled ==> mine.cancelled)
      modifies this, mine
      ensures Valid() && made == old(made) && mine.disposals == 1 && ran == !cancelled
      ensures !old(mine.cancelled) ==> ran
      ensures pending == if old(pending) == mine then null else old(pending)
    {
      ran := !cancelled;
      Release(mine);
    }
  }
}
