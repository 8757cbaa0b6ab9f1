/** Runs of the readers' machine in pieces: a whole reading with nothing in between, the rest of a rate change, time
    that passes. */
module SessionRuns {
  import opened SessionClock
  import opened SessionReaders

  // --- A reading with nothing in between ---

  /** What a reader does once it has begun to load. */
  function LoadAndAnswer(i: nat, axis: Axis): seq<Action> {
    [Load(i, BaseField(axis)), Load(i, OriginField(axis)), Load(i, Multiplier)] + [TakeClock(i), LookAgain(i), Answer(i)]
  }

  lemma {:induction false} RunBoth(s: Shared, actions: seq<Action>, more: seq<Action>)
    ensures Run(s, actions + more) == Run(Run(s, actions), more)
    decreases |actions|
  {
    hide Step;
    if actions == [] {
      assert actions + more == more;
    } else {
      assert (actions + more)[1..] == actions[1..] + more;
      RunBoth(Step(s, actions[0]), actions[1..], more);
    }
  }

  lemma RunThree(s: Shared, a: Action, b: Action, c: Action)
    ensures Run(s, [a, b, c]) == Step(Step(Step(s, a), b), c)
  {
    hide Step;
    assert [a, b, c][1..] == [b, c] && [b, c][1..] == [c] && [c][1..] == [];
    assert Run(s, [a, b, c]) == Run(Step(s, a), [b, c]) == Run(Step(Step(s, a), b), [c]);
  }

  /** One reader stands otherwise, and everything else as it did. */
  function With(s: Shared, i: nat, r: Reader): Shared
    requires i < |s.readers|
  {
    s.(readers := s.readers[i := r])
  }

  function SeenOf(a: Anchor, axis: Axis): map<Field, int> {
    map[][BaseField(axis) := a.Get(BaseField(axis))][OriginField(axis) := a.Get(OriginField(axis))]
       [Multiplier := a.multiplier]
  }

  lemma OneLoaded(s: Shared, i: nat, f: Field)
    requires Shaped(s) && i < |s.readers| && s.readers[i].Loading?
    ensures var r := s.readers[i];
      Step(s, Load(i, f)) == With(s, i, Loading(r.axis, r.floors, r.look, r.seen[f := s.anchor.Get(f)]))
  {
  }

  lemma AllLoaded(s: Shared, i: nat, axis: Axis, floors: seq<Clocks>, look: Look)
    requires Shaped(s) && i < |s.readers| && s.readers[i] == Loading(axis, floors, look, map[])
    ensures Run(s, [Load(i, BaseField(axis)), Load(i, OriginField(axis)), Load(i, Multiplier)])
         == With(s, i, Loading(axis, floors, look, SeenOf(s.anchor, axis)))
  {
    hide Step;
    RunThree(s, Load(i, BaseField(axis)), Load(i, OriginField(axis)), Load(i, Multiplier));
    OneLoaded(s, i, BaseField(axis));
    var a := Step(s, Load(i, BaseField(axis)));
    OneLoaded(a, i, OriginField(axis));
    OneLoaded(Step(a, Load(i, OriginField(axis))), i, Multiplier);
  }

  /** What the fields give at the clock as it stands. */
  function Given(s: Shared, i: nat, axis: Axis, seen: map<Field, int>): int
    requires Shaped(s) && i < |s.readers| && Loaded(axis, seen)
  {
    Value(axis, seen, s.released[s.homes[i]].On(axis), s.now.On(axis))
  }

  lemma ClockTaken(s: Shared, i: nat, axis: Axis, floors: seq<Clocks>, look: Look, seen: map<Field, int>)
    requires Shaped(s) && i < |s.readers| && Loaded(axis, seen) && s.readers[i] == Loading(axis, floors, look, seen)
    ensures Step(s, TakeClock(i)) == With(s, i, Timed(axis, floors, look, seen, s.now.On(axis)))
  {
  }

  lemma LookedAgain(s: Shared, i: nat, axis: Axis, floors: seq<Clocks>, look: Look, seen: map<Field, int>)
    requires Shaped(s) && i < |s.readers| && IsFresh(s, look) && Loaded(axis, seen)
    requires s.readers[i] == Timed(axis, floors, look, seen, s.now.On(axis))
    ensures var q := s.homes[i];
      Step(s, LookAgain(i))
      == With(s, i, Settled(axis, floors, seen, s.now.On(axis))).(
           highest := s.highest[q := Raise(s.highest[q], axis, Given(s, i, axis, seen))])
  {
    hide Value;
  }

  lemma AnswerGiven(s: Shared, i: nat, axis: Axis, floors: seq<Clocks>, seen: map<Field, int>)
    requires Shaped(s) && i < |s.readers| && Loaded(axis, seen)
    requires s.readers[i] == Settled(axis, floors, seen, s.now.On(axis))
    ensures Step(s, Answer(i)) == With(s, i, Answered(axis, floors, s.now.On(axis), Given(s, i, axis, seen)))
  {
    hide Value;
  }

  lemma LoadedAnswers(s: Shared, i: nat, axis: Axis, floors: seq<Clocks>, look: Look, seen: map<Field, int>)
    requires Shaped(s) && i < |s.readers| && Loaded(axis, seen) && s.readers[i] == Loading(axis, floors, look, seen)
    requires IsFresh(s, look)
    ensures var q := s.homes[i];
      Run(s, [TakeClock(i), LookAgain(i), Answer(i)])
      == With(s, i, Answered(axis, floors, s.now.On(axis), Given(s, i, axis, seen))).(
           highest := s.highest[q := Raise(s.highest[q], axis, Given(s, i, axis, seen))])
  {
    hide Value, Step, Loaded;
    RunThree(s, TakeClock(i), LookAgain(i), Answer(i));
    ClockTaken(s, i, axis, floors, look, seen);
    LookedAgain(Step(s, TakeClock(i)), i, axis, floors, look, seen);
    AnswerGiven(Step(Step(s, TakeClock(i)), LookAgain(i)), i, axis, floors, seen);
  }

  /** The reading of the block as it stands, at the clock as it stands. */
  function Read(s: Shared, i: nat, axis: Axis): int
    requires Shaped(s) && i < |s.readers|
  {
    ReadsReleased(s.anchor, axis, s.released[s.homes[i]].On(axis), s.now.On(axis))
  }

  lemma LoadingAnswers(s: Shared, i: nat, axis: Axis, floors: seq<Clocks>, look: Look)
    requires Shaped(s) && i < |s.readers| && s.readers[i] == Loading(axis, floors, look, map[]) && IsFresh(s, look)
    ensures var q := s.homes[i];
      Run(s, LoadAndAnswer(i, axis))
      == With(s, i, Answered(axis, floors, s.now.On(axis), Read(s, i, axis))).(
           highest := s.highest[q := Raise(s.highest[q], axis, Read(s, i, axis))])
  {
    hide Step, ReleasedAt, DurationAt;
    var first := [Load(i, BaseField(axis)), Load(i, OriginField(axis)), Load(i, Multiplier)];
    RunBoth(s, first, [TakeClock(i), LookAgain(i), Answer(i)]);
    AllLoaded(s, i, axis, floors, look);
    LoadedAnswers(With(s, i, Loading(axis, floors, look, SeenOf(s.anchor, axis))), i, axis, floors, look,
                  SeenOf(s.anchor, axis));
  }

  /** A reader that begins and gives up at once; one that begins and finds no write open. */
  function ReadBlind(i: nat, axis: Axis): seq<Action> { [Begin(i, axis), GiveUp(i)] + LoadAndAnswer(i, axis) }

  function ReadLooking(i: nat, axis: Axis): seq<Action> { [Begin(i, axis), TakeLook(i)] + LoadAndAnswer(i, axis) }

  predicate AtRest(s: Shared, i: nat) {
    Shaped(s) && i < |s.readers| && (s.readers[i].Resting? || s.readers[i].Answered?)
  }

  /** What a whole reading leaves: its answer, and what the machine stands at otherwise as it was. */
  predicate LeavesReading(s: Shared, t: Shared, i: nat, axis: Axis)
    requires Shaped(s) && i < |s.readers|
  {
    && i < |t.readers| && t.readers[i].Answered? && t.readers[i].value == Read(s, i, axis)
    && t == s.(readers := s.readers[i := t.readers[i]], highest := t.highest, givenUp := t.givenUp)
    && |t.highest| == |s.highest|
  }

  lemma RunTwo(s: Shared, a: Action, b: Action)
    ensures Run(s, [a, b]) == Step(Step(s, a), b)
  {
    hide Step;
    assert [a, b][1..] == [b] && [b][1..] == [];
    assert Run(s, [a, b]) == Run(Step(s, a), [b]);
  }

  lemma Begins(s: Shared, i: nat, axis: Axis)
    requires AtRest(s, i)
    ensures Step(s, Begin(i, axis)) == With(s, i, Begun(axis, s.highest))
  {
  }

  lemma GivesUp(s: Shared, i: nat, axis: Axis, floors: seq<Clocks>)
    requires Shaped(s) && i < |s.readers| && s.readers[i] == Begun(axis, floors)
    ensures var t := Step(s, GiveUp(i)); t == With(s, i, Loading(axis, floors, Blind, map[])).(givenUp := t.givenUp)
  {
  }

  lemma Looks(s: Shared, i: nat, axis: Axis, floors: seq<Clocks>)
    requires Shaped(s) && i < |s.readers| && s.readers[i] == Begun(axis, floors) && s.seqno % 2 == 0
    ensures Step(s, TakeLook(i)) == With(s, i, Loading(axis, floors, At(s.seqno), map[]))
  {
  }

  lemma BlindReads(s: Shared, i: nat, axis: Axis)
    requires AtRest(s, i)
    ensures LeavesReading(s, Run(s, ReadBlind(i, axis)), i, axis)
  {
    hide ReleasedAt, DurationAt, LoadAndAnswer, Step;
    RunBoth(s, [Begin(i, axis), GiveUp(i)], LoadAndAnswer(i, axis));
    RunTwo(s, Begin(i, axis), GiveUp(i));
    Begins(s, i, axis);
    GivesUp(Step(s, Begin(i, axis)), i, axis, s.highest);
    LoadingAnswers(Step(Step(s, Begin(i, axis)), GiveUp(i)), i, axis, s.highest, Blind);
  }

  lemma LookingReads(s: Shared, i: nat, axis: Axis)
    requires AtRest(s, i) && s.seqno % 2 == 0
    ensures LeavesReading(s, Run(s, ReadLooking(i, axis)), i, axis)
  {
    hide ReleasedAt, DurationAt, LoadAndAnswer, Step;
    RunBoth(s, [Begin(i, axis), TakeLook(i)], LoadAndAnswer(i, axis));
    RunTwo(s, Begin(i, axis), TakeLook(i));
    Begins(s, i, axis);
    Looks(Step(s, Begin(i, axis)), i, axis, s.highest);
    LoadingAnswers(Step(Step(s, Begin(i, axis)), TakeLook(i)), i, axis, s.highest, At(s.seqno));
  }

  /** A reader overtaken by a write begins again, and with no write open answers from the block as it then stands; with
      the floors it began with. */
  lemma AnOvertakenReaderReadsAgain(s: Shared, i: nat, axis: Axis)
    requires Shaped(s) && i < |s.readers| && s.readers[i].Timed? && s.readers[i].axis == axis && s.seqno % 2 == 0
    requires Loaded(axis, s.readers[i].seen) && s.readers[i].look.At? && s.readers[i].look.seqno != s.seqno
    ensures var n := Step(s, LookAgain(i));
      && n == With(s, i, Begun(axis, s.readers[i].floors))
      && var t := Run(n, [TakeLook(i)] + LoadAndAnswer(i, axis));
      && |t.readers| == |s.readers|
      && t.readers[i] == Answered(axis, s.readers[i].floors, s.now.On(axis), Read(s, i, axis))
  {
    hide Value, LoadAndAnswer, Run;
    var (n, floors) := (Step(s, LookAgain(i)), s.readers[i].floors);
    hide Step;
    RunBoth(n, [TakeLook(i)], LoadAndAnswer(i, axis));
    Looks(n, i, axis, floors);
    OneStep(n, TakeLook(i));
    LoadingAnswers(Step(n, TakeLook(i)), i, axis, floors, At(s.seqno));
  }

  lemma OneStep(s: Shared, a: Action)
    ensures Run(s, [a]) == Step(s, a)
  {
    hide Step;
    assert [a][1..] == [];
  }

  // --- The writer goes on and finishes ---

  function Stores(n: nat): seq<Action> { if n == 0 then [] else [StoreNext] + Stores(n - 1) }

  /** The change with `n` more of its fields stored. */
  predicate StoredMore(s: Shared, t: Shared, n: nat) {
    && s.writer.StoringRate? && s.writer.done + n <= 8
    && t == s.(writer := StoringRate(s.writer.was, s.writer.rate, s.writer.quit, s.writer.qpc, s.writer.done + n),
               anchor := Stored(s.writer.was, s.writer.Target(), FULL_ORDER, s.writer.done + n))
  }

  lemma StoresOne(s: Shared)
    requires s.alive && s.writer.StoringRate? && s.writer.done < 8
    requires s.anchor == Stored(s.writer.was, s.writer.Target(), FULL_ORDER, s.writer.done)
    ensures StoredMore(s, Step(s, StoreNext), 1)
  {
    hide WallAt, DurationAt;
  }

  lemma {:induction false} StoresAll(s: Shared, n: nat)
    requires s.alive && s.writer.StoringRate? && s.writer.done + n <= 8
    requires s.anchor == Stored(s.writer.was, s.writer.Target(), FULL_ORDER, s.writer.done)
    ensures StoredMore(s, Run(s, Stores(n)), n)
    decreases n
  {
    hide Step, Stored, Rebased;
    if n > 0 {
      StoresOne(s);
      assert Stores(n)[1..] == Stores(n - 1);
      StoresAll(Step(s, StoreNext), n - 1);
    }
  }

  /** The rest of the stores, and the end of the write. */
  function Finish(done: nat): seq<Action>
    requires done <= 8
  {
    Stores(8 - done) + [Close]
  }

  lemma Closes(s: Shared)
    requires s.alive && s.writer.StoringRate? && s.writer.done == 8
    ensures Run(s, [Close]) == s.(writer := Idle, seqno := s.seqno + 1, givenUp := false)
  {
    assert [Close][1..] == [];
    assert Run(s, [Close]) == Step(s, Close);
  }

  lemma Finishes(s: Shared)
    requires s.alive && s.writer.StoringRate? && s.writer.done <= 8
    requires s.anchor == Stored(s.writer.was, s.writer.Target(), FULL_ORDER, s.writer.done)
    ensures var t := Run(s, Finish(s.writer.done));
      t == s.(writer := Idle, seqno := s.seqno + 1, givenUp := false, anchor := s.writer.Target())
  {
    hide Rebased, Stored, Step, Run, Stores;
    RunBoth(s, Stores(8 - s.writer.done), [Close]);
    StoresAll(s, 8 - s.writer.done);
    Closes(Run(s, Stores(8 - s.writer.done)));
    FullIsTarget(s.writer.was, s.writer.rate, Clocks(s.writer.quit, s.writer.qpc));
  }

  lemma FullIsTarget(was: Anchor, rate: int, at: Clocks)
    ensures var to := Rebased(was, rate, at.quit, at.qpc); Stored(was, to, FULL_ORDER, 8) == to
  {
    hide WallAt, DurationAt;
    StoredRebase(was, rate, at.quit, at.qpc, 8);
  }

  lemma Ticks(s: Shared, time: nat)
    ensures Run(s, [Tick(time, time)]) == s.(now := Clocks(s.now.quit + time, s.now.qpc + time))
  {
    assert [Tick(time, time)][1..] == [];
    assert Run(s, [Tick(time, time)]) == Step(s, Tick(time, time));
  }

  // --- A jump ---

  /** A jump left alone moves the wall and nothing else, under a number of its own. */
  lemma AJumpLeftAlone(s: Shared, to: int, at: int)
    requires s.alive && s.writer.Idle?
    ensures Run(s, [OpenJump(to, at)] + ([StoreNext, StoreNext, StoreNext] + [Close]))
         == s.(anchor := s.anchor.(aFake := to, aReal := at), seqno := s.seqno + 2, givenUp := false)
  {
    hide Step;
    var stores := [StoreNext, StoreNext, StoreNext];
    RunBoth(s, [OpenJump(to, at)], stores + [Close]);
    assert [OpenJump(to, at)][1..] == [] && [Close][1..] == [];
    var begun := Step(s, OpenJump(to, at));
    assert Run(s, [OpenJump(to, at)]) == begun;
    RunBoth(begun, stores, [Close]);
    RunThree(begun, StoreNext, StoreNext, StoreNext);
    var stored := Run(begun, stores);
    assert Run(stored, [Close]) == Step(stored, Close);
    JumpSteps(s, to, at);
  }

  lemma JumpSteps(s: Shared, to: int, at: int)
    requires s.alive && s.writer.Idle?
    ensures Step(Step(Step(Step(Step(s, OpenJump(to, at)), StoreNext), StoreNext), StoreNext), Close)
         == s.(anchor := s.anchor.(aFake := to, aReal := at), seqno := s.seqno + 2, givenUp := false)
  {
  }

  // --- A step of somebody else ---

  /** Nobody moves a reader but itself, and no clock runs back. */
  predicate LeavesAlone(s: Shared, t: Shared, i: nat) {
    && Shaped(t) && t.homes == s.homes && |t.readers| == |s.readers| && |t.released| == |s.released|
    && i < |s.readers| && t.readers[i] == s.readers[i]
    && s.now.quit <= t.now.quit && s.now.qpc <= t.now.qpc
  }

  lemma OthersLeaveAlone(s: Shared, act: Action, i: nat)
    requires Shaped(s) && i < |s.readers| && !(IsReading(act) && act.i == i)
    ensures LeavesAlone(s, Step(s, act), i)
  {
    if IsReading(act) {
      OtherReaderLeavesAlone(s, act, i);
    } else {
      hide Stored;
    }
  }

  lemma OtherReaderLeavesAlone(s: Shared, act: Action, i: nat)
    requires Shaped(s) && i < |s.readers| && IsReading(act) && act.i != i
    ensures LeavesAlone(s, Step(s, act), i)
  {
    hide Value, Loaded;
  }

  /** A step of a reading under way: it looks, gives up, takes its clock, finds itself overtaken, settles or answers. */
  predicate ReadsOn(r: Reader, n: Reader, now: Clocks, released: Clocks) {
    || n == r
    || (r.Begun? && n.Loading? && n.axis == r.axis && n.seen == map[])
    || (r.Loading? && n.Timed? && n.axis == r.axis && n.seen == r.seen && n.clock == now.On(r.axis)
        && Loaded(r.axis, r.seen))
    || (r.Timed? && n.Begun? && n.axis == r.axis)
    || (r.Timed? && n.Settled? && n.axis == r.axis && n.seen == r.seen && n.clock == r.clock)
    || (r.Settled? && Loaded(r.axis, r.seen) && n.Answered? && n.axis == r.axis && n.clock == r.clock
        && n.value == Value(r.axis, r.seen, released.On(r.axis), r.clock))
  }

  /** A step of a reader leaves everything to do with the writer, the clocks and the processes. */
  predicate OneReads(s: Shared, t: Shared) {
    && Shaped(t) && |t.readers| == |s.readers| && |t.highest| == |s.highest|
    && t == s.(readers := t.readers, highest := t.highest, givenUp := t.givenUp)
  }

  lemma OwnStepReadsOn(s: Shared, act: Action, i: nat)
    requires Shaped(s) && i < |s.readers| && IsReading(act) && act.i == i && !act.Begin? && !act.Load?
    ensures var t := Step(s, act);
      OneReads(s, t) && ReadsOn(s.readers[i], t.readers[i], s.now, s.released[s.homes[i]])
  {
    hide Value, Loaded;
  }

  /** A reading of the block gives what the block does. */
  lemma AgreesGives(a: Anchor, axis: Axis, seen: map<Field, int>, released: int, clock: int)
    requires Loaded(axis, seen) && Agrees(a, axis, seen)
    ensures Value(axis, seen, released, clock) == ReadsReleased(a, axis, released, clock)
  {
  }

  /** Once let go, let go for good. */
  lemma {:induction false} OnceLetGo(s: Shared, acts: seq<Action>, home: nat, axis: Axis)
    requires home < |s.released| && s.released[home].On(axis) != 0
    ensures home < |Run(s, acts).released| && Run(s, acts).released[home].On(axis) == s.released[home].On(axis)
    decreases |acts|
  {
    if acts != [] {
      OneStepLetGo(s, acts[0], home, axis);
      hide Step;
      OnceLetGo(Step(s, acts[0]), acts[1..], home, axis);
    }
  }

  lemma OneStepLetGo(s: Shared, act: Action, home: nat, axis: Axis)
    requires home < |s.released| && s.released[home].On(axis) != 0
    ensures home < |Step(s, act).released| && Step(s, act).released[home].On(axis) == s.released[home].On(axis)
  {
    hide Value;
  }

  /** Held at the end, held all through. */
  lemma HeldBefore(s: Shared, acts: seq<Action>, home: nat, axis: Axis)
    requires home < |s.released| && home < |Run(s, acts).released| && Run(s, acts).released[home].On(axis) == 0
    ensures s.released[home].On(axis) == 0
  {
    if s.released[home].On(axis) != 0 {
      OnceLetGo(s, acts, home, axis);
    }
  }
}
