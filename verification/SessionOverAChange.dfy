/** Readings that go on over a rate change, in every interleaving with its stores: what they answer by the fields they
    loaded, against every answer before the change and every reading after it. */
module SessionOverAChange {
  import opened SessionClock
  import opened SessionReaders
  import opened SessionRuns
  import opened SessionTornReads

  // --- Which stores a reader saw ---

  /** The stores of the change done so far: all of them, once it is over. */
  function StoresDone(s: Shared): nat { if s.writer.StoringRate? then s.writer.done else 8 }

  function NotedAt(l: Loads, axis: Axis, f: Field, k: nat): Loads {
    if f == BaseField(axis) then l.(base := k)
    else if f == OriginField(axis) then l.(origin := k)
    else if f == Multiplier then l.(rate := k)
    else l
  }

  function Noted(l: Loads, s: Shared, act: Action, j: nat, axis: Axis): Loads {
    if act.Load? && act.i == j && j < |s.readers| && s.readers[j].Loading? then
      NotedAt(l, axis, act.f, StoresDone(s))
    else l
  }

  /** When, in a run, a reader loaded each field last. */
  function NotedOver(l: Loads, s: Shared, acts: seq<Action>, j: nat, axis: Axis): Loads
    decreases |acts|
  {
    if acts == [] then l else NotedOver(Noted(l, s, acts[0], j, axis), Step(s, acts[0]), acts[1..], j, axis)
  }

  // --- What stays so over the change ---

  predicate SameRateFields(a: Anchor, b: Anchor) {
    a.quitC0 == b.quitC0 && a.qpcC0 == b.qpcC0 && a.q0 == b.q0 && a.qpcQ0 == b.qpcQ0 && a.multiplier == b.multiplier
  }

  /** The change `w` is under way, or over with no other begun. */
  predicate OnChange(s: Shared, w: Writer)
    requires w.StoringRate?
  {
    && (s.seqno % 2 == 0 <==> s.writer.Idle?)
    && MadeAt(w).quit <= s.now.quit && MadeAt(w).qpc <= s.now.qpc
    && match s.writer
       case StoringRate(was, rate, quit, qpc, done) =>
         && was == w.was && rate == w.rate && quit == w.quit && qpc == w.qpc && done <= 8
         && s.anchor == Stored(was, w.Target(), FULL_ORDER, done)
       case StoringJump(was, _, _, _) => SameRateFields(s.anchor, w.Target()) && SameRateFields(was, w.Target())
       case Idle => SameRateFields(s.anchor, w.Target())
       case _ => false
  }

  lemma OnChangeStep(s: Shared, w: Writer, act: Action)
    requires w.StoringRate? && OnChange(s, w) && !act.OpenRate?
    ensures OnChange(Step(s, act), w)
  {
    hide WallAt, DurationAt, Value;
    if act.Close? && s.writer.StoringRate? {
      FullIsTarget(w.was, w.rate, MadeAt(w));
      hide Rebased, Stored;
    } else {
      hide Rebased;
    }
  }

  /** A field of the axis as it stands is that of the stores done. */
  lemma AsFarAsDone(s: Shared, w: Writer, axis: Axis, f: Field)
    requires w.StoringRate? && OnChange(s, w)
    ensures StoresDone(s) <= 8
    ensures f == BaseField(axis) || f == OriginField(axis) || f == Multiplier ==>
      s.anchor.Get(f) == FieldAt(w, f, StoresDone(s))
  {
    hide Rebased, Stored;
    FullIsTarget(w.was, w.rate, MadeAt(w));
  }

  predicate LoadedFrom(w: Writer, axis: Axis, l: Loads, seen: map<Field, int>)
    requires w.StoringRate? && IsLoads(l)
  {
    && (BaseField(axis) in seen ==> seen[BaseField(axis)] == FieldAt(w, BaseField(axis), l.base))
    && (OriginField(axis) in seen ==> seen[OriginField(axis)] == FieldAt(w, OriginField(axis), l.origin))
    && (Multiplier in seen ==> seen[Multiplier] == FieldAt(w, Multiplier, l.rate))
  }

  /** What a reader holds is from the stores noted, and what it answered is what these give. */
  predicate ReadsMixed(s: Shared, j: nat, axis: Axis, w: Writer, l: Loads)
    requires w.StoringRate?
  {
    && j < |s.readers| && IsLoads(l)
    && match s.readers[j]
       case Resting => false
       case Begun(x, _) => x == axis
       case Loading(x, _, _, seen) => x == axis && LoadedFrom(w, axis, l, seen)
       case Timed(x, _, _, seen, clock) =>
         x == axis && Loaded(axis, seen) && LoadedFrom(w, axis, l, seen) && TakenSince(s, axis, w, clock)
       case Settled(x, _, seen, clock) =>
         x == axis && Loaded(axis, seen) && LoadedFrom(w, axis, l, seen) && TakenSince(s, axis, w, clock)
       case Answered(x, _, clock, value) =>
         x == axis && value == Mixed(w, axis, l, clock) && TakenSince(s, axis, w, clock)
  }

  predicate TakenSince(s: Shared, axis: Axis, w: Writer, clock: int)
    requires w.StoringRate?
  {
    MadeAt(w).On(axis) <= clock <= s.now.On(axis)
  }

  lemma LoadedGives(w: Writer, axis: Axis, l: Loads, seen: map<Field, int>, clock: int)
    requires w.StoringRate? && IsLoads(l) && Loaded(axis, seen) && LoadedFrom(w, axis, l, seen)
    ensures Value(axis, seen, 0, clock) == Mixed(w, axis, l, clock)
  {
    hide FieldAt;
  }

  lemma LoadMixed(s: Shared, f: Field, j: nat, axis: Axis, w: Writer, l: Loads)
    requires w.StoringRate? && OnChange(s, w) && Shaped(s) && ReadsMixed(s, j, axis, w, l)
    ensures ReadsMixed(Step(s, Load(j, f)), j, axis, w, Noted(l, s, Load(j, f), j, axis))
  {
    hide FieldAt, OnChange, Mixed;
    if s.readers[j].Loading? {
      OneLoaded(s, j, f);
      hide Step;
      AsFarAsDone(s, w, axis, f);
      OneMoreNoted(w, axis, l, s.readers[j].seen, f, StoresDone(s), s.anchor.Get(f));
      hide LoadedFrom, NotedAt, TakenSince, Loaded;
    }
  }

  lemma OneMoreNoted(w: Writer, axis: Axis, l: Loads, seen: map<Field, int>, f: Field, k: nat, v: int)
    requires w.StoringRate? && IsLoads(l) && LoadedFrom(w, axis, l, seen) && k <= 8
    requires f == BaseField(axis) || f == OriginField(axis) || f == Multiplier ==> v == FieldAt(w, f, k)
    ensures IsLoads(NotedAt(l, axis, f, k)) && LoadedFrom(w, axis, NotedAt(l, axis, f, k), seen[f := v])
  {
    hide FieldAt;
  }

  lemma OwnMixedStep(s: Shared, act: Action, j: nat, axis: Axis, w: Writer, l: Loads)
    requires w.StoringRate? && OnChange(s, w) && Shaped(s) && ReadsMixed(s, j, axis, w, l)
    requires IsReading(act) && act.i == j && !act.Begin? && !act.Load? && s.released[s.homes[j]].On(axis) == 0
    ensures ReadsMixed(Step(s, act), j, axis, w, l)
  {
    hide Step, Value, FieldAt, Mixed, OnChange;
    OwnStepReadsOn(s, act, j);
    var r := s.readers[j];
    if r.Settled? {
      LoadedGives(w, axis, l, r.seen, r.clock);
    }
    MadeBefore(s, w, axis);
    hide LoadedFrom, Loaded;
  }

  lemma MadeBefore(s: Shared, w: Writer, axis: Axis)
    requires w.StoringRate? && OnChange(s, w)
    ensures MadeAt(w).On(axis) <= s.now.On(axis)
  {
  }

  lemma MixedStep(s: Shared, act: Action, j: nat, axis: Axis, w: Writer, l: Loads)
    requires w.StoringRate? && OnChange(s, w) && Shaped(s) && ReadsMixed(s, j, axis, w, l)
    requires !act.OpenRate? && !(act.Begin? && act.i == j) && s.released[s.homes[j]].On(axis) == 0
    ensures var t := Step(s, act);
      Shaped(t) && t.homes == s.homes && |t.readers| == |s.readers| && |t.released| == |s.released|
      && OnChange(t, w) && ReadsMixed(t, j, axis, w, Noted(l, s, act, j, axis))
  {
    OnChangeStep(s, w, act);
    if IsReading(act) && act.i == j {
      if act.Load? {
        LoadMixed(s, act.f, j, axis, w, l);
      } else {
        OwnMixedStep(s, act, j, axis, w, l);
      }
      OwnStepShaped(s, act);
    } else {
      OthersLeaveAlone(s, act, j);
      hide Step, OnChange, FieldAt, Mixed, LoadedFrom;
    }
  }

  lemma OwnStepShaped(s: Shared, act: Action)
    requires Shaped(s) && IsReading(act)
    ensures var t := Step(s, act);
      Shaped(t) && t.homes == s.homes && |t.readers| == |s.readers| && |t.released| == |s.released|
  {
    hide Value, Loaded;
  }

  lemma {:induction false} MixedRun(s: Shared, acts: seq<Action>, j: nat, axis: Axis, w: Writer, l: Loads)
    requires w.StoringRate? && OnChange(s, w) && Shaped(s) && ReadsMixed(s, j, axis, w, l)
    requires forall k :: 0 <= k < |acts| ==> !acts[k].OpenRate? && !(acts[k].Begin? && acts[k].i == j)
    requires |Run(s, acts).released| == |s.released| && Run(s, acts).released[s.homes[j]].On(axis) == 0
    ensures var t := Run(s, acts);
      Shaped(t) && t.homes == s.homes && |t.readers| == |s.readers|
      && OnChange(t, w) && ReadsMixed(t, j, axis, w, NotedOver(l, s, acts, j, axis))
    decreases |acts|
  {
    HeldBefore(s, acts, s.homes[j], axis);
    hide Step, OnChange, ReadsMixed, Noted;
    InRange(s, j, axis, w, l);
    if acts != [] {
      MixedStep(s, acts[0], j, axis, w, l);
      MixedRun(Step(s, acts[0]), acts[1..], j, axis, w, Noted(l, s, acts[0], j, axis));
    }
  }

  lemma InRange(s: Shared, j: nat, axis: Axis, w: Writer, l: Loads)
    requires w.StoringRate? && ReadsMixed(s, j, axis, w, l)
    ensures j < |s.readers| && IsLoads(l)
  {
  }

  // --- What it comes to ---

  /** At the start of a reading: nothing loaded yet, or what it loaded still stands. */
  predicate ReadsYet(s: Shared, j: nat, axis: Axis) {
    && Shaped(s) && j < |s.readers|
    && match s.readers[j]
       case Begun(x, _) => x == axis
       case Loading(x, _, _, seen) => x == axis && Agrees(s.anchor, axis, seen)
       case _ => false
  }

  /** A rate change under way, from a line the axis was on. */
  predicate Changing(s: Shared, axis: Axis) {
    s.writer.StoringRate? && OnChange(s, s.writer) && LineFits(s.writer.was, axis, MadeAt(s.writer).On(axis))
  }

  /** As the readers' invariant has it. */
  lemma EveryChangeIsSo(s: Shared, axis: Axis)
    requires Inv(s, axis) && s.writer.StoringRate?
    ensures Changing(s, axis)
    ensures !s.givenUp ==> BelowLine(s, s.writer.was, axis, MadeAt(s.writer).On(axis))
  {
    hide Stored, Rebased, DurationAt;
  }

  lemma YetIsMixed(s: Shared, j: nat, axis: Axis)
    requires Changing(s, axis) && ReadsYet(s, j, axis)
    ensures ReadsMixed(s, j, axis, s.writer, Loads(s.writer.done, s.writer.done, s.writer.done))
  {
    hide FieldAt;
    AsFarAsDone(s, s.writer, axis, BaseField(axis));
    AsFarAsDone(s, s.writer, axis, OriginField(axis));
    AsFarAsDone(s, s.writer, axis, Multiplier);
  }

  /** A reading over a rate change, in every interleaving with its stores, its end, jumps, time, a core killed, other
      readers and other processes let go; no other rate change begins. It answers what its fields give as it loaded
      them: less than the axis stood at when the change was made exactly if `FallsBack` says so of them, and more than
      the finished change at its clock exactly if `RunsAhead` does. */
  lemma AReadingOverAChange(s: Shared, j: nat, axis: Axis, acts: seq<Action>)
    requires Changing(s, axis) && ReadsYet(s, j, axis)
    requires forall k :: 0 <= k < |acts| ==> !acts[k].OpenRate? && !(acts[k].Begin? && acts[k].i == j)
    ensures var (t, w) := (Run(s, acts), s.writer);
      var l := NotedOver(Loads(w.done, w.done, w.done), s, acts, j, axis);
      && |t.readers| == |s.readers| && |t.released| == |s.released|
      && (t.readers[j].Answered? && t.released[s.homes[j]].On(axis) == 0 ==>
            var (value, clock) := (t.readers[j].value, t.readers[j].clock);
            && TakenSince(t, axis, w, clock)
            && (value < Reads(w.was, axis, MadeAt(w).On(axis)) <==> FallsBack(w, axis, l, clock))
            && (value > Reads(w.Target(), axis, clock) <==> RunsAhead(w, axis, l, clock)))
  {
    hide Step, Reads, OnChange, FallsBack, RunsAhead, Mixed, Rebased, NotedOver, LineFits;
    var (t, w) := (Run(s, acts), s.writer);
    var l0 := Loads(w.done, w.done, w.done);
    SameNumber(s, acts);
    if t.readers[j].Answered? && t.released[s.homes[j]].On(axis) == 0 {
      YetIsMixed(s, j, axis);
      MixedRun(s, acts, j, axis, w, l0);
      var l := NotedOver(l0, s, acts, j, axis);
      FallsBackIff(w, axis, l, t.readers[j].clock);
      RunsAheadIff(w, axis, l, t.readers[j].clock);
    }
  }

  /** And if it does not fall back, it answers no less than anybody was given before the change. */
  lemma OtherwiseItKeepsUp(s: Shared, j: nat, axis: Axis, acts: seq<Action>, p: nat)
    requires Inv(s, axis) && s.writer.StoringRate? && !s.givenUp && ReadsYet(s, j, axis) && p < |s.highest|
    requires forall k :: 0 <= k < |acts| ==> !acts[k].OpenRate? && !(acts[k].Begin? && acts[k].i == j)
    ensures var (t, w) := (Run(s, acts), s.writer);
      && |t.readers| == |s.readers| && |t.released| == |s.released|
      && (t.readers[j].Answered? && t.released[s.homes[j]].On(axis) == 0
          && !FallsBack(w, axis, NotedOver(Loads(w.done, w.done, w.done), s, acts, j, axis), t.readers[j].clock)
          ==> s.highest[p].On(axis) <= t.readers[j].value)
  {
    hide Step, Reads, OnChange, FallsBack, RunsAhead, Rebased, NotedOver, LineFits, WriterFits, ReaderFits, ProcessFits;
    EveryChangeIsSo(s, axis);
    AReadingOverAChange(s, j, axis, acts);
  }

  // --- Between an earlier reading and a later one ---

  function Opens(rate: int): seq<Action> { [OpenRate(rate), ReadQuit, ReadQpc] }

  /** No write under way, and one reader of a process still held at rest. */
  predicate Quiet(s: Shared, i: nat, axis: Axis) {
    && AtRest(s, i) && s.alive && s.writer.Idle? && s.seqno % 2 == 0 && LineFits(s.anchor, axis, s.now.On(axis))
    && s.released[s.homes[i]].On(axis) == 0
  }

  lemma OpensRate(s: Shared, rate: int)
    requires s.alive && s.writer.Idle?
    ensures Run(s, Opens(rate))
         == s.(seqno := s.seqno + 1, writer := StoringRate(s.anchor, rate, s.now.quit, s.now.qpc, 0))
  {
    hide WallAt, DurationAt;
    RunThree(s, OpenRate(rate), ReadQuit, ReadQpc);
  }

  lemma NoneStored(was: Anchor, to: Anchor)
    ensures Stored(was, to, FULL_ORDER, 0) == was
  {
  }

  /** One reading, and a rate change opened at its clock. */
  lemma ReadsThenOpens(u: Shared, i: nat, axis: Axis, rate: int)
    requires Quiet(u, i, axis)
    ensures var s := Run(u, ReadLooking(i, axis) + Opens(rate));
      && Shaped(s) && |s.readers| == |u.readers| && s.homes == u.homes && s.released == u.released
      && s.now == u.now && s.alive && s.anchor == u.anchor && s.seqno % 2 == 1
      && s.writer == StoringRate(u.anchor, rate, u.now.quit, u.now.qpc, 0)
      && Changing(s, axis)
      && s.readers[i].Answered? && s.readers[i].value == Reads(u.anchor, axis, u.now.On(axis))
      && forall k :: 0 <= k < |u.readers| && k != i ==> s.readers[k] == u.readers[k]
  {
    hide Step, ReadLooking, Opens, Rebased, DurationAt, WallAt, Stored, Run;
    RunBoth(u, ReadLooking(i, axis), Opens(rate));
    LookingReads(u, i, axis);
    var m := Run(u, ReadLooking(i, axis));
    OpensRate(m, rate);
    var s := Run(u, ReadLooking(i, axis) + Opens(rate));
    NoneStored(u.anchor, s.writer.Target());
    HeldLine(u.anchor, axis, u.now.On(axis));
  }

  /** Answered, changed, and read over the change: lower exactly if it falls back. */
  lemma AReadingFallsBackIff(u: Shared, i: nat, j: nat, axis: Axis, rate: int, acts: seq<Action>)
    requires Quiet(u, i, axis) && AtRest(u, j) && i != j
    requires forall k :: 0 <= k < |acts| ==> !acts[k].OpenRate? && !(acts[k].Begin? && acts[k].i == j)
    ensures var s := Run(u, ReadLooking(i, axis) + Opens(rate));
      var (b, w) := (Step(s, Begin(j, axis)), s.writer);
      var t := Run(b, acts);
      && s.readers != [] && |s.readers| == |u.readers| && w.StoringRate? && |t.readers| == |u.readers|
      && s.readers[i].Answered? && u.homes[j] < |t.released|
      && (t.readers[j].Answered? && t.released[u.homes[j]].On(axis) == 0 ==>
            (t.readers[j].value < s.readers[i].value
             <==> FallsBack(w, axis, NotedOver(Loads(0, 0, 0), b, acts, j, axis), t.readers[j].clock)))
  {
    hide Step, ReadLooking, Opens, Reads, FallsBack, RunsAhead, Rebased, NotedOver, LineFits, OnChange;
    ReadsThenOpens(u, i, axis, rate);
    var s := Run(u, ReadLooking(i, axis) + Opens(rate));
    Begins(s, j, axis);
    BegunStillChanging(s, j, axis);
    AReadingOverAChange(Step(s, Begin(j, axis)), j, axis, acts);
  }

  lemma BegunStillChanging(s: Shared, j: nat, axis: Axis)
    requires Changing(s, axis) && AtRest(s, j)
    ensures var b := Step(s, Begin(j, axis));
      Changing(b, axis) && ReadsYet(b, j, axis) && b.writer == s.writer && b.released == s.released
      && b.homes == s.homes && |b.readers| == |s.readers|
  {
    hide Stored, Rebased;
    Begins(s, j, axis);
    hide Step;
  }

  /** What is left of a rate change. */
  function Ending(s: Shared): seq<Action>
    requires s.writer.StoringRate? ==> s.writer.done <= 8
  {
    if s.writer.StoringRate? then Finish(s.writer.done) else []
  }

  /** The change ends and another reader reads, at the clock of the reading over it. */
  lemma TheNextReads(t: Shared, w: Writer, k: nat, axis: Axis)
    requires w.StoringRate? && OnChange(t, w) && t.alive && (t.writer.StoringRate? || t.writer.Idle?)
    requires AtRest(t, k) && t.released[t.homes[k]].On(axis) == 0
    ensures var v := Run(t, Ending(t) + ReadLooking(k, axis));
      && |v.readers| == |t.readers| && v.readers[k].Answered?
      && v.readers[k].value == Reads(w.Target(), axis, t.now.On(axis))
      && forall n :: 0 <= n < |t.readers| && n != k ==> v.readers[n] == t.readers[n]
  {
    hide Step, ReadLooking, Rebased, Stored, Finish, DurationAt, WallAt;
    RunBoth(t, Ending(t), ReadLooking(k, axis));
    var f := Run(t, Ending(t));
    if t.writer.StoringRate? {
      Finishes(t);
    }
    assert SameRateFields(f.anchor, w.Target());
    hide Run;
    LookingReads(f, k, axis);
    HeldLine(f.anchor, axis, t.now.On(axis));
  }

  /** A reading over a change is answered, the change ends, another reading begins and is answered at the same clock, in
      any process still held: lower exactly if the first ran ahead. */
  lemma GivingUpRunsBackIff(s: Shared, j: nat, axis: Axis, acts: seq<Action>, k: nat)
    requires Changing(s, axis) && ReadsYet(s, j, axis)
    requires forall n :: 0 <= n < |acts| ==> !acts[n].OpenRate? && !(acts[n].Begin? && acts[n].i == j)
    requires var t := Run(s, acts);
      && j < |t.readers| && t.readers[j].Answered? && t.readers[j].clock == t.now.On(axis)
      && AtRest(t, k) && k != j && t.alive && (t.writer.StoringRate? || t.writer.Idle?)
      && s.homes[j] < |t.released| && t.released[s.homes[j]].On(axis) == 0 && t.released[t.homes[k]].On(axis) == 0
    ensures var (t, w) := (Run(s, acts), s.writer);
      && (t.writer.StoringRate? ==> t.writer.done <= 8)
      && var v := Run(t, Ending(t) + ReadLooking(k, axis));
      && |v.readers| == |t.readers| && v.readers[k].Answered? && v.readers[j] == t.readers[j]
      && (v.readers[k].value < v.readers[j].value
          <==> RunsAhead(w, axis, NotedOver(Loads(w.done, w.done, w.done), s, acts, j, axis), t.readers[j].clock))
  {
    hide Step, Reads, OnChange, FallsBack, RunsAhead, Rebased, NotedOver, LineFits, ReadLooking, Ending, Mixed;
    var (t, w) := (Run(s, acts), s.writer);
    YetIsMixed(s, j, axis);
    SameNumber(s, acts);
    MixedRun(s, acts, j, axis, w, Loads(w.done, w.done, w.done));
    AReadingOverAChange(s, j, axis, acts);
    StoresInRange(t, w);
    TheNextReads(t, w, k, axis);
  }

  lemma StoresInRange(t: Shared, w: Writer)
    requires w.StoringRate? && OnChange(t, w)
    ensures t.writer.StoringRate? ==> t.writer.done <= 8
  {
  }

  // --- Runs from the opening of a session ---

  /** Half a change, some time, a reader that gives up on it, the rest of it, the next reader. */
  function GivenUp(rate: int, k: nat, time: nat, i: nat, j: nat): seq<Action>
    requires k <= 8
  {
    Opens(rate) + (Stores(k) + ([Tick(time, time)] + (ReadBlind(i, Quit) + (Finish(k) + ReadLooking(j, Quit)))))
  }

  /** From where it gives up. */
  lemma GivesUpThenNext(s: Shared, i: nat, j: nat)
    requires s.alive && s.writer.StoringRate? && s.writer.done <= 8 && s.seqno % 2 == 1
    requires s.anchor == Stored(s.writer.was, s.writer.Target(), FULL_ORDER, s.writer.done)
    requires AtRest(s, i) && AtRest(s, j) && i != j
    requires s.released[s.homes[i]] == Clocks(0, 0) && s.released[s.homes[j]] == Clocks(0, 0)
    ensures var t := Run(s, ReadBlind(i, Quit) + (Finish(s.writer.done) + ReadLooking(j, Quit)));
      && |t.readers| == |s.readers| && t.readers[i].Answered? && t.readers[j].Answered?
      && t.readers[i].value == Reads(s.anchor, Quit, s.now.quit)
      && t.readers[j].value == Reads(s.writer.Target(), Quit, s.now.quit)
  {
    hide Step, Rebased, Stored, Reads, ReadBlind, ReadLooking, Finish;
    var w := s.writer;
    RunBoth(s, ReadBlind(i, Quit), Finish(w.done) + ReadLooking(j, Quit));
    BlindReads(s, i, Quit);
    var b := Run(s, ReadBlind(i, Quit));
    RunBoth(b, Finish(w.done), ReadLooking(j, Quit));
    Finishes(b);
    hide Run;
    LookingReads(b.(writer := Idle, seqno := b.seqno + 1, givenUp := false, anchor := w.Target()), j, Quit);
    HeldLine(s.anchor, Quit, s.now.quit);
    HeldLine(w.Target(), Quit, s.now.quit);
  }

  /** Any number of the stores done, and some time gone. */
  lemma GetsHalfWay(s: Shared, rate: int, k: nat, time: nat)
    requires s.alive && s.writer.Idle? && k <= 8
    ensures var t := Run(Run(Run(s, Opens(rate)), Stores(k)), [Tick(time, time)]);
      var w := StoringRate(s.anchor, rate, s.now.quit, s.now.qpc, k);
      t == s.(seqno := s.seqno + 1, writer := w, now := Clocks(s.now.quit + time, s.now.qpc + time),
              anchor := Stored(s.anchor, w.Target(), FULL_ORDER, k))
  {
    hide Run, Stored, Rebased, Opens, Stores;
    OpensRate(s, rate);
    var a := Run(s, Opens(rate));
    NoneStored(s.anchor, a.writer.Target());
    StoresAll(a, k);
    Ticks(Run(a, Stores(k)), time);
  }

  lemma GivenUpRuns(s: Shared, rate: int, k: nat, time: nat, i: nat, j: nat)
    requires JustOpened(s) && k <= 8 && i < |s.readers| && j < |s.readers| && i != j
    ensures var t := Run(s, GivenUp(rate, k, time, i, j));
      var to := Rebased(s.anchor, rate, s.now.quit, s.now.qpc);
      && |t.readers| == |s.readers| && t.readers[i].Answered? && t.readers[j].Answered?
      && t.readers[i].value == Reads(Stored(s.anchor, to, FULL_ORDER, k), Quit, s.now.quit + time)
      && t.readers[j].value == Reads(to, Quit, s.now.quit + time)
  {
    hide Run, Stored, Rebased, Opens, Stores, ReadBlind, ReadLooking, Finish, Reads, LineFits;
    var rest := ReadBlind(i, Quit) + (Finish(k) + ReadLooking(j, Quit));
    RunBoth(s, Opens(rate), Stores(k) + ([Tick(time, time)] + rest));
    RunBoth(Run(s, Opens(rate)), Stores(k), [Tick(time, time)] + rest);
    RunBoth(Run(Run(s, Opens(rate)), Stores(k)), [Tick(time, time)], rest);
    GetsHalfWay(s, rate, k, time);
    GivesUpThenNext(Run(Run(Run(s, Opens(rate)), Stores(k)), [Tick(time, time)]), i, j);
  }

  /** From the real rate to twice it, with the base stored and its origin not: a thousand ticks counted twice. */
  lemma ASpeedUpGivenUpOnRunsBack(s: Shared)
    requires JustOpened(s) && |s.readers| >= 2
    requires s.anchor == Anchor(0, 0, 0, 0, 0, 0, 0, 1) && s.now == Clocks(1000, 1000)
    ensures var t := Run(s, GivenUp(2, 4, 0, 0, 1));
      |t.readers| >= 2 && t.readers[0].Answered? && t.readers[1].Answered?
      && t.readers[0].value == 2000 && t.readers[1].value == 1000
  {
    hide GivenUp, Run;
    GivenUpRuns(s, 2, 4, 0, 0, 1);
    hide JustOpened, Stored;
    StoredRebase(s.anchor, 2, 1000, 1000, 4);
    hide WallAt;
  }

  /** From x1440 to x1 with only the rate not stored, 30 ms on: 43 seconds. */
  lemma ASlowdownGivenUpOnRunsBack(s: Shared)
    requires JustOpened(s) && |s.readers| >= 2
    requires s.anchor == Anchor(0, 0, 0, 0, 0, 0, 0, 1440) && s.now == Clocks(100, 100)
    ensures var t := Run(s, GivenUp(1, 7, 300_000, 0, 1));
      |t.readers| >= 2 && t.readers[0].Answered? && t.readers[1].Answered?
      && t.readers[0].value - t.readers[1].value == 431_700_000
  {
    hide GivenUp, Run;
    GivenUpRuns(s, 1, 7, 300_000, 0, 1);
    hide JustOpened, Stored;
    StoredRebase(s.anchor, 1, 100, 100, 7);
    hide WallAt;
  }

  /** A reading; a change, and after some of its stores a reader that gives up and loads its base; the rest of the
      change; and the rest of that reading. */
  function Straddled(rate: int, k: nat, i: nat, j: nat): seq<Action>
    requires k <= 8
  {
    (ReadLooking(i, Quit) + Opens(rate))
    + (Stores(k) + ([Begin(j, Quit), GiveUp(j), Load(j, DurQuitC0)]
    + (Finish(k) + ([Load(j, DurQ0), Load(j, Multiplier)] + [TakeClock(j), LookAgain(j), Answer(j)]))))
  }

  lemma LoadsTheRest(s: Shared, j: nat, floors: seq<Clocks>, base: int)
    requires Shaped(s) && j < |s.readers|
    requires s.readers[j] == Loading(Quit, floors, Blind, map[DurQuitC0 := base])
    ensures var t := Run(s, [Load(j, DurQ0), Load(j, Multiplier)] + [TakeClock(j), LookAgain(j), Answer(j)]);
      && |t.readers| == |s.readers| && t.readers[j].Answered?
      && t.readers[j].value
         == ReleasedAt(base, s.anchor.q0, s.anchor.multiplier, s.released[s.homes[j]].quit, s.now.quit)
      && forall n :: 0 <= n < |s.readers| && n != j ==> t.readers[n] == s.readers[n]
  {
    hide Step, Run, ReleasedAt;
    RunBoth(s, [Load(j, DurQ0), Load(j, Multiplier)], [TakeClock(j), LookAgain(j), Answer(j)]);
    RunTwo(s, Load(j, DurQ0), Load(j, Multiplier));
    OneLoaded(s, j, DurQ0);
    OneLoaded(Step(s, Load(j, DurQ0)), j, Multiplier);
    var seen := map[DurQuitC0 := base][DurQ0 := s.anchor.q0][Multiplier := s.anchor.multiplier];
    var full := With(s, j, Loading(Quit, floors, Blind, seen));
    assert Step(Step(s, Load(j, DurQ0)), Load(j, Multiplier)) == full;
    LoadedAnswers(full, j, Quit, floors, Blind, seen);
  }

  lemma LoadsItsBase(s: Shared, j: nat)
    requires AtRest(s, j)
    ensures var t := Run(s, [Begin(j, Quit), GiveUp(j), Load(j, DurQuitC0)]);
      t == With(s, j, Loading(Quit, s.highest, Blind, map[DurQuitC0 := s.anchor.quitC0])).(givenUp := t.givenUp)
  {
    hide Step, Run;
    RunThree(s, Begin(j, Quit), GiveUp(j), Load(j, DurQuitC0));
    Begins(s, j, Quit);
    var b := Step(s, Begin(j, Quit));
    GivesUp(b, j, Quit, s.highest);
    OneLoaded(Step(b, GiveUp(j)), j, DurQuitC0);
    assert map[][DurQuitC0 := s.anchor.quitC0] == map[DurQuitC0 := s.anchor.quitC0];
  }

  /** From the opened change on. */
  lemma StraddlesTheRest(s: Shared, k: nat, j: nat)
    requires s.alive && s.writer.StoringRate? && s.writer.done == 0 && k <= 8 && s.seqno % 2 == 1
    requires s.anchor == s.writer.was && AtRest(s, j) && s.released[s.homes[j]].quit == 0
    ensures var (w, t) := (s.writer, Run(s, Stores(k) + ([Begin(j, Quit), GiveUp(j), Load(j, DurQuitC0)]
                                            + (Finish(k) + ([Load(j, DurQ0), Load(j, Multiplier)]
                                                            + [TakeClock(j), LookAgain(j), Answer(j)])))));
      && |t.readers| == |s.readers| && t.readers[j].Answered?
      && t.readers[j].value == DurationAt(FieldAt(w, DurQuitC0, k), w.quit, w.rate, s.now.quit)
      && forall n :: 0 <= n < |s.readers| && n != j ==> t.readers[n] == s.readers[n]
  {
    hide Step, Run, Stored, Rebased, Stores, Finish, DurationAt;
    var (w, begins) := (s.writer, [Begin(j, Quit), GiveUp(j), Load(j, DurQuitC0)]);
    var rest := [Load(j, DurQ0), Load(j, Multiplier)] + [TakeClock(j), LookAgain(j), Answer(j)];
    RunBoth(s, Stores(k), begins + (Finish(k) + rest));
    NoneStored(w.was, w.Target());
    StoresAll(s, k);
    var b := Run(s, Stores(k));
    RunBoth(b, begins, Finish(k) + rest);
    LoadsItsBase(b, j);
    var c := Run(b, begins);
    RunBoth(c, Finish(k), rest);
    Finishes(c);
    LoadsTheRest(Run(c, Finish(k)), j, s.highest, FieldAt(w, DurQuitC0, k));
    TargetIs(w);
  }

  lemma TargetIs(w: Writer)
    requires w.StoringRate?
    ensures w.Target().q0 == w.quit && w.Target().multiplier == w.rate
  {
  }

  /** A speed-up from x2 to x3, its base loaded before it was stored, its origin after: 2000, and then nothing. */
  lemma AReadingOverASpeedUpFallsBack(s: Shared, i: nat, j: nat)
    requires JustOpened(s) && i < |s.readers| && j < |s.readers| && i != j
    requires s.anchor == Anchor(0, 0, 0, 0, 0, 0, 0, 2) && s.now == Clocks(1000, 1000)
    ensures var t := Run(s, Straddled(3, 3, i, j));
      |t.readers| == |s.readers| && t.readers[i].Answered? && t.readers[j].Answered?
      && t.readers[i].value == 2000 && t.readers[j].value == 0
  {
    hide Step, Run, Opens, ReadLooking, Stores, Finish, WallAt, Stored, Rebased, OnChange;
    var first := ReadLooking(i, Quit) + Opens(3);
    RunBoth(s, first, Stores(3) + ([Begin(j, Quit), GiveUp(j), Load(j, DurQuitC0)]
                      + (Finish(3) + ([Load(j, DurQ0), Load(j, Multiplier)]
                                      + [TakeClock(j), LookAgain(j), Answer(j)]))));
    ReadsThenOpens(s, i, Quit, 3);
    var a := Run(s, first);
    StraddlesTheRest(a, 3, j);
    StoredRebase(s.anchor, 3, 1000, 1000, 3);
  }
}
