/** Processes let go after their core is gone: what every later reading gives, an instant published after its own
    clock was past, and processes let go at different instants - exactly, and with the runs that get there. */
module SessionReleases {
  import opened SessionClock
  import opened SessionReaders
  import opened SessionRuns

  // --- Readings of a dead core's session ---

  /** What a reader holds, since it began no earlier than `since`, is all of this block; what it answered is its
      process's line. */
  predicate ReadsStill(s: Shared, i: nat, axis: Axis, a: Anchor, released: int, since: int) {
    && i < |s.readers|
    && match s.readers[i]
       case Resting => false
       case Begun(x, _) => x == axis
       case Loading(x, _, _, seen) => x == axis && Agrees(a, axis, seen)
       case Timed(x, _, _, seen, clock) =>
         x == axis && Loaded(axis, seen) && Agrees(a, axis, seen) && since <= clock <= s.now.On(axis)
       case Settled(x, _, seen, clock) =>
         x == axis && Loaded(axis, seen) && Agrees(a, axis, seen) && since <= clock <= s.now.On(axis)
       case Answered(x, _, clock, value) =>
         x == axis && value == ReadsReleased(a, axis, released, clock) && since <= clock <= s.now.On(axis)
  }

  /** A dead core's session, as one process and one axis of it stand. */
  predicate Still(s: Shared, a: Anchor, home: nat, axis: Axis, released: int, since: int) {
    && Shaped(s) && !s.alive && s.anchor == a && since <= s.now.On(axis)
    && home < |s.released| && s.released[home].On(axis) == released
  }

  lemma StillStep(s: Shared, act: Action, i: nat, axis: Axis, a: Anchor, home: nat, released: int, since: int)
    requires Still(s, a, home, axis, released, since) && i < |s.homes| && s.homes[i] == home
    requires ReadsStill(s, i, axis, a, released, since) && !(act.Begin? && act.i == i)
    ensures var t := Step(s, act);
      && t.homes == s.homes && home < |t.released|
      && (t.released[home].On(axis) == released ==>
            Still(t, a, home, axis, released, since) && ReadsStill(t, i, axis, a, released, since))
  {
    if IsReading(act) && act.i == i {
      OwnStillStep(s, act, i, axis, a, home, released, since);
    } else {
      OtherStillStep(s, act, i, axis, a, home, released, since);
    }
  }

  lemma OwnStillStep(s: Shared, act: Action, i: nat, axis: Axis, a: Anchor, home: nat, released: int, since: int)
    requires Still(s, a, home, axis, released, since) && i < |s.homes| && s.homes[i] == home
    requires ReadsStill(s, i, axis, a, released, since) && IsReading(act) && act.i == i && !act.Begin?
    ensures var t := Step(s, act);
      t.homes == s.homes && Still(t, a, home, axis, released, since) && ReadsStill(t, i, axis, a, released, since)
  {
    if act.Load? {
      OwnLoadStill(s, act.f, i, axis, a, home, released, since);
    } else {
      OwnOtherStill(s, act, i, axis, a, home, released, since);
    }
  }

  lemma OwnLoadStill(s: Shared, f: Field, i: nat, axis: Axis, a: Anchor, home: nat, released: int, since: int)
    requires Still(s, a, home, axis, released, since) && i < |s.homes| && s.homes[i] == home
    requires ReadsStill(s, i, axis, a, released, since)
    ensures var t := Step(s, Load(i, f));
      t.homes == s.homes && Still(t, a, home, axis, released, since) && ReadsStill(t, i, axis, a, released, since)
  {
    hide Value, ReadsReleased;
    if s.readers[i].Loading? {
      OneLoaded(s, i, f);
      hide Step, Loaded;
    }
  }

  lemma OwnOtherStill(s: Shared, act: Action, i: nat, axis: Axis, a: Anchor, home: nat, released: int, since: int)
    requires Still(s, a, home, axis, released, since) && i < |s.homes| && s.homes[i] == home
    requires ReadsStill(s, i, axis, a, released, since) && IsReading(act) && act.i == i && !act.Begin? && !act.Load?
    ensures var t := Step(s, act);
      t.homes == s.homes && Still(t, a, home, axis, released, since) && ReadsStill(t, i, axis, a, released, since)
  {
    hide Step, Value, ReadsReleased;
    OwnStepReadsOn(s, act, i);
    var r := s.readers[i];
    if r.Settled? {
      AgreesGives(a, axis, r.seen, released, r.clock);
    }
  }

  lemma OtherStillStep(s: Shared, act: Action, i: nat, axis: Axis, a: Anchor, home: nat, released: int, since: int)
    requires Still(s, a, home, axis, released, since) && i < |s.readers|
    requires ReadsStill(s, i, axis, a, released, since) && !(IsReading(act) && act.i == i)
    ensures var t := Step(s, act);
      && t.homes == s.homes && home < |t.released|
      && (t.released[home].On(axis) == released ==>
            Still(t, a, home, axis, released, since) && ReadsStill(t, i, axis, a, released, since))
  {
    hide ReadsReleased, Agrees;
    OthersLeaveAlone(s, act, i);
    OneStepDead(s, act);
    hide Step;
  }

  lemma {:induction false} StillRun(
      s: Shared, acts: seq<Action>, i: nat, axis: Axis, a: Anchor, home: nat, released: int, since: int)
    requires Still(s, a, home, axis, released, since) && i < |s.homes| && s.homes[i] == home
    requires ReadsStill(s, i, axis, a, released, since)
    requires forall k :: 0 <= k < |acts| ==> !(acts[k].Begin? && acts[k].i == i)
    requires home < |Run(s, acts).released| && Run(s, acts).released[home].On(axis) == released
    ensures Still(Run(s, acts), a, home, axis, released, since)
    ensures ReadsStill(Run(s, acts), i, axis, a, released, since) && Run(s, acts).homes == s.homes
    decreases |acts|
  {
    hide Step, Still, ReadsStill;
    if acts != [] {
      var t := Step(s, acts[0]);
      StillStep(s, acts[0], i, axis, a, home, released, since);
      if t.released[home].On(axis) != released {
        StillIsSo(s, a, home, axis, released, since);
        OneStepStaysOrGoes(s, acts[0], home, axis);
        OnceLetGo(t, acts[1..], home, axis);
      }
      StillRun(t, acts[1..], i, axis, a, home, released, since);
    }
  }

  lemma StillIsSo(s: Shared, a: Anchor, home: nat, axis: Axis, released: int, since: int)
    requires Still(s, a, home, axis, released, since)
    ensures home < |s.released| && s.released[home].On(axis) == released
  {
  }

  lemma OneStepStaysOrGoes(s: Shared, act: Action, home: nat, axis: Axis)
    requires home < |s.released|
    ensures home < |Step(s, act).released|
    ensures Step(s, act).released[home].On(axis) != s.released[home].On(axis) ==>
      s.released[home].On(axis) == 0 && Step(s, act).released[home].On(axis) != 0
  {
    hide Value;
  }

  /** In every interleaving with the core dead: a reading answers by its process's line at its own clock, with the
      process held, or let go, all through it. */
  lemma ADeadCoresReading(s: Shared, j: nat, axis: Axis, acts: seq<Action>)
    requires !s.alive && AtRest(s, j)
    requires forall k :: 0 <= k < |acts| ==> !(acts[k].Begin? && acts[k].i == j)
    ensures var t := Run(Step(s, Begin(j, axis)), acts);
      && t.homes == s.homes && |t.readers| == |s.readers| && |t.released| == |s.released|
      && (t.released[s.homes[j]].On(axis) == s.released[s.homes[j]].On(axis) && t.readers[j].Answered? ==>
            && t.readers[j].axis == axis && s.now.On(axis) <= t.readers[j].clock <= t.now.On(axis)
            && t.readers[j].value
               == ReadsReleased(s.anchor, axis, s.released[s.homes[j]].On(axis), t.readers[j].clock))
  {
    hide ReleasedAt, Step;
    Begins(s, j, axis);
    var (b, home) := (Step(s, Begin(j, axis)), s.homes[j]);
    SameNumber(b, acts);
    SameHomes(b, acts);
    var released := s.released[home].On(axis);
    if Run(b, acts).released[home].On(axis) == released {
      StillRun(b, acts, j, axis, s.anchor, home, released, s.now.On(axis));
    }
  }

  lemma {:induction false} SameHomes(s: Shared, acts: seq<Action>)
    ensures Run(s, acts).homes == s.homes
    decreases |acts|
  {
    if acts != [] {
      assert Step(s, acts[0]).homes == s.homes by { hide Value; }
      hide Step;
      SameHomes(Step(s, acts[0]), acts[1..]);
    }
  }

  // --- Published late ---

  /** A reading at the first clock passed an instant not yet published, and one at the second obeys it: the real time
      gone since the instant has not made up yet for what the first was given of the session's rate. */
  predicate Lowers(a: Anchor, axis: Axis, at: int, first: int, second: int) {
    at < first && second - at < (first - at) * AtLeast(1, a.multiplier)
    && Reads(a, axis, at) + (second - at) < I64_MAX
  }

  lemma LowersIff(a: Anchor, axis: Axis, at: int, first: int, second: int)
    requires 0 < at && LineFits(a, axis, at) && LineFits(a, axis, first) && first <= second
    ensures ReadsReleased(a, axis, at, second) < Reads(a, axis, first) <==> Lowers(a, axis, at, first, second)
  {
    var (base, origin, rate) := (a.Get(BaseField(axis)), a.Get(OriginField(axis)), a.multiplier);
    LineIs(base, origin, rate, at);
    if second < at {
      Steeper(base, origin, rate, first, second);
    } else {
      LetGoLine(a, axis, at, second);
      if at < first {
        Steeper(base, origin, rate, at, first);
      } else {
        Steeper(base, origin, rate, first, at);
      }
    }
  }

  /** A late publication lowers some later reading, exactly if something was answered past the instant, the session
      runs faster than real time, and the axis is not at its top. */
  lemma ALatePublicationMisleadsIff(a: Anchor, axis: Axis, at: int, first: int)
    requires 0 < at && LineFits(a, axis, at) && LineFits(a, axis, first)
    ensures (exists c :: first <= c && ReadsReleased(a, axis, at, c) < Reads(a, axis, first))
            <==> at < first && a.multiplier > 1 && Reads(a, axis, at) + (first - at) < I64_MAX
  {
    hide ReleasedAt, Reads, LineFits;
    var m := AtLeast(1, a.multiplier);
    if c :| first <= c && ReadsReleased(a, axis, at, c) < Reads(a, axis, first) {
      LowersIff(a, axis, at, first, c);
      assert m == 1 ==> (first - at) * m == first - at;
    }
    if at < first && a.multiplier > 1 && Reads(a, axis, at) + (first - at) < I64_MAX {
      assert (first - at) * m == (first - at) + (first - at) * (m - 1);
      MulMonotone(1, first - at, m - 1);
      LowersIff(a, axis, at, first, first);
    }
  }

  /** In every interleaving with the core dead: a reading answered while its process was held, an instant published for
      the process, and a reading of the process begun after that. The later one is lower exactly if `Lowers` says so at
      their clocks. */
  lemma ALatePublicationRunsBackIff(
      s: Shared, i: nat, before: seq<Action>, at: int, between: seq<Action>, j: nat, after: seq<Action>, axis: Axis)
    requires !s.alive && AtRest(s, i) && LineFits(s.anchor, axis, s.now.On(axis))
    requires 0 < at && LineFits(s.anchor, axis, at)
    requires forall k :: 0 <= k < |before| ==> !(before[k].Begin? && before[k].i == i)
    requires forall k :: 0 <= k < |after| ==> !(after[k].Begin? && after[k].i == j)
    requires var m := Run(Step(s, Begin(i, axis)), before);
             && i < |m.readers| && m.readers[i].Answered?
             && s.homes[i] < |m.released| && m.released[s.homes[i]].On(axis) == 0
             && var q := Run(Step(m, LetGo(s.homes[i], axis, at)), between);
             AtRest(q, j) && q.homes[j] == s.homes[i]
    ensures var m := Run(Step(s, Begin(i, axis)), before);
      var q := Run(Step(m, LetGo(s.homes[i], axis, at)), between);
      var t := Run(Step(q, Begin(j, axis)), after);
      && |t.readers| == |q.readers| && m.readers[i].clock <= q.now.On(axis)
      && m.readers[i].value == Reads(s.anchor, axis, m.readers[i].clock)
      && (t.readers[j].Answered? ==>
            && q.now.On(axis) <= t.readers[j].clock
            && t.readers[j].value == ReadsReleased(s.anchor, axis, at, t.readers[j].clock)
            && (t.readers[j].value < m.readers[i].value
                <==> Lowers(s.anchor, axis, at, m.readers[i].clock, t.readers[j].clock)))
  {
    hide ReleasedAt, Reads, Step, Lowers, LineFits;
    var home := s.homes[i];
    var b := Step(s, Begin(i, axis));
    var m := Run(b, before);
    ADeadCoresReading(s, i, axis, before);
    Begins(s, i, axis);
    HeldBefore(b, before, home, axis);
    HeldLine(s.anchor, axis, m.readers[i].clock);
    StaysDead(b, before);
    var p := Step(m, LetGo(home, axis, at));
    LetGoThen(m, home, axis, at);
    StaysDead(p, between);
    OnceLetGo(p, between, home, axis);
    var q := Run(p, between);
    ADeadCoresReading(q, j, axis, after);
    var t := Run(Step(q, Begin(j, axis)), after);
    Begins(q, j, axis);
    OnceLetGo(Step(q, Begin(j, axis)), after, home, axis);
    if t.readers[j].Answered? {
      OriginStays(s.anchor, axis, s.now.On(axis), m.readers[i].clock);
      LowersIff(s.anchor, axis, at, m.readers[i].clock, t.readers[j].clock);
    }
  }

  lemma OriginStays(a: Anchor, axis: Axis, earlier: int, later: int)
    requires LineFits(a, axis, earlier) && earlier <= later
    ensures LineFits(a, axis, later)
  {
  }

  lemma LetGoThen(s: Shared, home: nat, axis: Axis, at: int)
    requires !s.alive && home < |s.released| && s.released[home].On(axis) == 0 && 0 < at
    ensures var t := Step(s, LetGo(home, axis, at));
      home < |t.released| && t.released[home].On(axis) == at && t == s.(released := t.released)
  {
  }

  lemma {:induction false} StaysDead(s: Shared, acts: seq<Action>)
    requires !s.alive
    ensures var t := Run(s, acts);
      !t.alive && t.anchor == s.anchor && t.homes == s.homes
      && s.now.quit <= t.now.quit && s.now.qpc <= t.now.qpc
    decreases |acts|
  {
    if acts != [] {
      OneStepDead(s, acts[0]);
      hide Step;
      StaysDead(Step(s, acts[0]), acts[1..]);
    }
  }

  lemma OneStepDead(s: Shared, act: Action)
    requires !s.alive
    ensures var t := Step(s, act);
      !t.alive && t.anchor == s.anchor && t.homes == s.homes
      && s.now.quit <= t.now.quit && s.now.qpc <= t.now.qpc
  {
    hide Value;
  }

  /** A core killed at x60; a reading a tenth of a second and a half after the watcher read its clock; the instant, a
      tenth after that clock, published only now; the next reading one tick on. */
  function LetGoLate(home: nat, i: nat, j: nat): seq<Action> {
    [Kill, Tick(1_500_000, 1_500_000)]
    + (ReadLooking(i, Quit) + ([LetGo(home, Quit, 1_000_000), Tick(1, 1)] + ReadLooking(j, Quit)))
  }

  lemma ALateReleaseRunsBack(s: Shared, i: nat, j: nat)
    requires JustOpened(s) && i < |s.readers| && j < |s.readers| && i != j && s.homes[i] == s.homes[j]
    requires s.anchor == Anchor(0, 0, 0, 0, 0, 0, 0, 60) && s.now == Clocks(0, 0)
    ensures var t := Run(s, LetGoLate(s.homes[i], i, j));
      |t.readers| == |s.readers| && t.readers[i].Answered? && t.readers[j].Answered?
      && t.readers[i].value == 90_000_000 && t.readers[j].value == 60_500_001
  {
    hide ReadLooking, Step, ReleasedAt, DurationAt;
    var (home, late) := (s.homes[i], [LetGo(s.homes[i], Quit, 1_000_000), Tick(1, 1)]);
    RunBoth(s, [Kill, Tick(1_500_000, 1_500_000)], ReadLooking(i, Quit) + (late + ReadLooking(j, Quit)));
    KilledAndAWhile(s, 1_500_000);
    var dead := Run(s, [Kill, Tick(1_500_000, 1_500_000)]);
    RunBoth(dead, ReadLooking(i, Quit), late + ReadLooking(j, Quit));
    LookingReads(dead, i, Quit);
    var m := Run(dead, ReadLooking(i, Quit));
    RunBoth(m, late, ReadLooking(j, Quit));
    PublishedLate(m, home);
    LookingReads(Run(m, late), j, Quit);
    LateValues();
  }

  lemma KilledAndAWhile(s: Shared, time: nat)
    ensures Run(s, [Kill, Tick(time, time)])
         == s.(alive := false, now := Clocks(s.now.quit + time, s.now.qpc + time))
  {
    RunTwo(s, Kill, Tick(time, time));
  }

  lemma PublishedLate(s: Shared, home: nat)
    requires !s.alive && home < |s.released| && s.released[home] == Clocks(0, 0)
    ensures Run(s, [LetGo(home, Quit, 1_000_000), Tick(1, 1)])
         == s.(now := Clocks(s.now.quit + 1, s.now.qpc + 1), released := s.released[home := Clocks(1_000_000, 0)])
  {
    RunTwo(s, LetGo(home, Quit, 1_000_000), Tick(1, 1));
  }

  lemma LateValues()
    ensures ReleasedAt(0, 0, 60, 0, 1_500_000) == 90_000_000
    ensures ReleasedAt(0, 0, 60, 1_000_000, 1_500_001) == 60_500_001
  {
  }

  // --- Let go apart ---

  /** A core killed at x60, one process let go a tenth of a second after it was noticed, another one tenth of a
      millisecond later: past the first instant the later one is ahead, and a reading of the first that begins after
      one of the second was answered is lower. */
  function LetGoApart(first: nat, second: nat): seq<Action> {
    [Kill, LetGo(first, Quit, 1_000_000), Tick(1000, 1000)] + [LetGo(second, Quit, 1_001_000), Tick(999_900, 999_900)]
  }

  lemma FirstLetGo(s: Shared, first: nat)
    requires JustOpened(s) && s.now == Clocks(0, 0) && first < |s.released|
    ensures Run(s, [Kill, LetGo(first, Quit, 1_000_000), Tick(1000, 1000)])
         == s.(alive := false, now := Clocks(1000, 1000), released := s.released[first := Clocks(1_000_000, 0)])
  {
    hide DurationAt, LineFits;
    RunThree(s, Kill, LetGo(first, Quit, 1_000_000), Tick(1000, 1000));
  }

  lemma SecondLetGo(s: Shared, second: nat)
    requires !s.alive && s.now == Clocks(1000, 1000) && second < |s.released| && s.released[second] == Clocks(0, 0)
    ensures Run(s, [LetGo(second, Quit, 1_001_000), Tick(999_900, 999_900)])
         == s.(now := Clocks(1_000_900, 1_000_900), released := s.released[second := Clocks(1_001_000, 0)])
  {
    RunTwo(s, LetGo(second, Quit, 1_001_000), Tick(999_900, 999_900));
  }

  lemma ApartAfterTheKill(s: Shared, first: nat, second: nat)
    requires JustOpened(s) && s.now == Clocks(0, 0) && first < |s.released| && second < |s.released| && first != second
    ensures Run(s, LetGoApart(first, second))
         == s.(alive := false, now := Clocks(1_000_900, 1_000_900),
               released := s.released[first := Clocks(1_000_000, 0)][second := Clocks(1_001_000, 0)])
  {
    hide DurationAt, LineFits, Step;
    RunBoth(s, [Kill, LetGo(first, Quit, 1_000_000), Tick(1000, 1000)],
            [LetGo(second, Quit, 1_001_000), Tick(999_900, 999_900)]);
    FirstLetGo(s, first);
    SecondLetGo(Run(s, [Kill, LetGo(first, Quit, 1_000_000), Tick(1000, 1000)]), second);
  }

  /** One reading, some time, another reading. */
  function TwoReadings(i: nat, time: nat, j: nat, axis: Axis): seq<Action> {
    ReadLooking(i, axis) + ([Tick(time, time)] + ReadLooking(j, axis))
  }

  /** What two readings in a row answer, each by its own process's line; so the second is lower than the first exactly
      if the two lines are so at their clocks. */
  lemma TwoReadingsAnswer(s: Shared, i: nat, time: nat, j: nat, axis: Axis)
    requires AtRest(s, i) && AtRest(s, j) && i != j && s.seqno % 2 == 0
    ensures var t := Run(s, TwoReadings(i, time, j, axis));
      && |t.readers| == |s.readers| && t.readers[i].Answered? && t.readers[j].Answered?
      && t.readers[i].value == ReadsReleased(s.anchor, axis, s.released[s.homes[i]].On(axis), s.now.On(axis))
      && t.readers[j].value == ReadsReleased(s.anchor, axis, s.released[s.homes[j]].On(axis), s.now.On(axis) + time)
  {
    hide ReadLooking, ReleasedAt, DurationAt, Step, Run;
    RunBoth(s, ReadLooking(i, axis), [Tick(time, time)] + ReadLooking(j, axis));
    LookingReads(s, i, axis);
    var b := Run(s, ReadLooking(i, axis));
    RunBoth(b, [Tick(time, time)], ReadLooking(j, axis));
    Ticks(b, time);
    var c := Run(b, [Tick(time, time)]);
    assert c.homes == s.homes && c.released == s.released && c.anchor == s.anchor && AtRest(c, j);
    LookingReads(c, j, axis);
  }

  lemma AcrossProcessesItRunsBack(s: Shared, i: nat, j: nat)
    requires JustOpened(s) && i < |s.readers| && j < |s.readers| && s.homes[i] != s.homes[j]
    requires s.anchor == Anchor(0, 0, 0, 0, 0, 0, 0, 60) && s.now == Clocks(0, 0)
    ensures var t := Run(s, LetGoApart(s.homes[j], s.homes[i]) + TwoReadings(i, 50, j, Quit));
      |t.readers| == |s.readers| && t.readers[i].Answered? && t.readers[j].Answered?
      && t.readers[i].value == 60_054_000 && t.readers[j].value == 60_000_950
  {
    hide LetGoApart, TwoReadings, Step;
    var apart := LetGoApart(s.homes[j], s.homes[i]);
    RunBoth(s, apart, TwoReadings(i, 50, j, Quit));
    ApartAfterTheKill(s, s.homes[j], s.homes[i]);
    TwoReadingsAnswer(Run(s, apart), i, 50, j, Quit);
  }
}
