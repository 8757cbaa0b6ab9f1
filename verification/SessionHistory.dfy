/** Every clock of a session after any course of events, against what it ought to have run to. */
module SessionHistory {
  import opened SessionClock

  /** How far past the watcher's clock a process is let go: at least one tick. */
  type Margin = n: int | n > 0 witness 1

  /** What can happen to a session between two readings. */
  datatype Event =
    | Pass(quit: nat, qpc: nat)
    | Rate(rate: nat)
    | Jump(to: int)
    | LetGo(quitMargin: Margin, qpcMargin: Margin)

  /** A session as it is kept: an anchor block, and the instants a process was let go at (0 while held). */
  datatype Session = Session(anchor: Anchor, now: Clocks, released: Clocks) {
    predicate Gone() { released.quit != 0 }

    function Step(e: Event): Session {
      match e
      case Pass(dq, dp) => this.(now := Clocks(now.quit + dq, now.qpc + dp))
      case Rate(m) => if Gone() then this else this.(anchor := Rebased(anchor, m, now.quit, now.qpc))
      case Jump(to) => if Gone() then this else this.(anchor := Jumped(anchor, to, now.quit))
      case LetGo(dq, dp) => if Gone() then this else this.(released := Clocks(now.quit + dq, now.qpc + dp))
    }

    function Run(events: seq<Event>): Session
      decreases |events|
    {
      if events == [] then this else Step(events[0]).Run(events[1..])
    }

    /** A duration axis as a process reads it now. */
    function Reading(axis: Axis): int { ReadsReleased(anchor, axis, released.On(axis), now.On(axis)) }

    function Wall(): int { WallAt(anchor.aFake, anchor.aReal, now.quit, anchor.multiplier) }

    /** `dur_axis_at_range_end`: whether the axis stands at the end of what it can hold. */
    predicate AtRangeEnd() {
      var elapsed := Elapsed(anchor.q0, now.quit) * AtLeast(1, anchor.multiplier);
      elapsed > I64_MAX || anchor.quitC0 + elapsed > I64_MAX
    }
  }

  /** The same session as it is promised: each axis the sum of real time by the rate it passed at,
      in exact arithmetic and with no anchor, no base and no limit. */
  datatype Promise = Promise(quit: int, qpc: int, wall: int, rate: nat, now: Clocks, released: Clocks) {
    function On(axis: Axis): int { if axis == Quit then quit else qpc }

    /** Of `dt` ticks from now on, those the session still holds the process for. */
    function HeldTicks(axis: Axis, dt: nat): nat {
      if released.On(axis) == 0 then dt
      else
        var left := released.On(axis) - now.On(axis);
        if left <= 0 then 0 else if left >= dt then dt else left
    }

    function Runs(axis: Axis, dt: nat): int {
      HeldTicks(axis, dt) * AtLeast(1, rate) + (dt - HeldTicks(axis, dt))
    }

    function Step(e: Event): Promise {
      match e
      case Pass(dq, dp) =>
        this.(quit := quit + Runs(Quit, dq), qpc := qpc + Runs(Qpc, dp), wall := wall + dq * rate,
              now := Clocks(now.quit + dq, now.qpc + dp))
      case Rate(m) => if released.quit != 0 then this else this.(rate := m)
      case Jump(to) => if released.quit != 0 then this else this.(wall := to)
      case LetGo(dq, dp) =>
        if released.quit != 0 then this else this.(released := Clocks(now.quit + dq, now.qpc + dp))
    }

    function Run(events: seq<Event>): Promise
      decreases |events|
    {
      if events == [] then this else Step(events[0]).Run(events[1..])
    }
  }

  /** A moment a session may jump to: `instant_in_session_range` lets no other through. */
  predicate IsMoment(to: int) { 0 <= to <= FAKE_WALL_MAX }

  predicate Jumps(events: seq<Event>) {
    forall k :: 0 <= k < |events| && events[k].Jump? ==> IsMoment(events[k].to)
  }

  function Opened(wall: int, offset: int, start: Clocks, rate: nat): Session {
    Session(Anchor(wall, start.quit, offset, start.quit, start.qpc, start.quit, start.qpc, rate), start, Clocks(0, 0))
  }

  function Promised(wall: int, start: Clocks, rate: nat): Promise {
    Promise(start.quit, start.qpc, wall, rate, start, Clocks(0, 0))
  }

  function ClampWall(x: int): int { if x < 0 then 0 else if x > FAKE_WALL_MAX then FAKE_WALL_MAX else x }

  predicate AxisFits(s: Session, axis: Axis) {
    var (base, origin) := (s.anchor.Get(BaseField(axis)), s.anchor.Get(OriginField(axis)));
    && 0 <= base <= I64_MAX && 0 <= origin <= s.now.On(axis)
    && (s.released.On(axis) == 0 || origin < s.released.On(axis))
    && (s.released.quit == 0 <==> s.released.On(axis) == 0)
  }

  /** A session keeps its promise: what every reader gets is the promised value, cut to the range. */
  ghost predicate Keeps(s: Session, p: Promise) {
    && s.now == p.now && s.released == p.released && s.anchor.multiplier == p.rate
    && AxisFits(s, Quit) && AxisFits(s, Qpc)
    && 0 <= s.anchor.aReal <= s.now.quit && IsMoment(s.anchor.aFake)
    && 0 <= p.quit && s.Reading(Quit) == Saturate(p.quit)
    && 0 <= p.qpc && s.Reading(Qpc) == Saturate(p.qpc)
    && 0 <= p.wall && s.Wall() == ClampWall(p.wall)
  }

  lemma LineRuns(base: int, origin: int, rate: int, now: int, dt: nat)
    requires 0 <= base <= I64_MAX && 0 <= origin <= now && now + dt <= I64_MAX
    ensures DurationAt(base, origin, rate, now + dt)
         == Saturate(DurationAt(base, origin, rate, now) + dt * AtLeast(1, rate))
    ensures dt * AtLeast(1, rate) >= 0 && DurationAt(base, origin, rate, now) >= 0
  {
    var m := AtLeast(1, rate);
    assert (now + dt - origin) * m == (now - origin) * m + dt * m;
    MulMonotone(0, now - origin, m);
    MulMonotone(0, dt, m);
  }

  /** The line of a process let go, over time on both sides of the instant it was let go at. */
  lemma ReleasedRuns(base: int, origin: int, rate: int, released: int, now: int, held: nat, free: nat)
    requires 0 <= base <= I64_MAX && 0 <= origin <= now && now + held + free <= I64_MAX
    requires released == 0 || origin < released
    requires released == 0 ==> free == 0
    requires released != 0 && held > 0 ==> now + held <= released
    requires released != 0 && free > 0 ==> released <= now + held
    ensures ReleasedAt(base, origin, rate, released, now + held + free)
         == Saturate(ReleasedAt(base, origin, rate, released, now) + held * AtLeast(1, rate) + free)
    ensures held * AtLeast(1, rate) >= 0 && ReleasedAt(base, origin, rate, released, now) >= 0
  {
    LineRuns(base, origin, rate, now, held);
    if 0 < released <= now + held {
      LineRuns(base, origin, rate, released, 0);
    }
  }

  lemma WallRuns(fake: int, origin: int, rate: nat, now: int, dt: nat)
    requires IsMoment(fake) && 0 <= origin <= now && now + dt <= I64_MAX
    ensures WallAt(fake, origin, now + dt, rate) == ClampWall(WallAt(fake, origin, now, rate) + dt * rate)
    ensures dt * rate >= 0
  {
    assert (now + dt - origin) * rate == (now - origin) * rate + dt * rate;
    MulMonotone(0, now - origin, rate);
    MulMonotone(0, dt, rate);
  }

  lemma PassKeepsAxis(s: Session, p: Promise, axis: Axis, dt: nat)
    requires s.now == p.now && s.released == p.released && s.anchor.multiplier == p.rate && AxisFits(s, axis)
    requires s.now.On(axis) + dt <= I64_MAX && 0 <= p.On(axis) && s.Reading(axis) == Saturate(p.On(axis))
    ensures ReadsReleased(s.anchor, axis, s.released.On(axis), s.now.On(axis) + dt)
         == Saturate(p.On(axis) + p.Runs(axis, dt))
    ensures p.Runs(axis, dt) >= 0
  {
    var held := p.HeldTicks(axis, dt);
    ReleasedRuns(s.anchor.Get(BaseField(axis)), s.anchor.Get(OriginField(axis)), p.rate, s.released.On(axis),
                 s.now.On(axis), held, dt - held);
  }

  lemma PassKeeps(s: Session, p: Promise, dq: nat, dp: nat)
    requires Keeps(s, p) && s.now.quit + dq <= I64_MAX && s.now.qpc + dp <= I64_MAX
    ensures Keeps(s.Step(Pass(dq, dp)), p.Step(Pass(dq, dp)))
  {
    PassKeepsAxis(s, p, Quit, dq);
    PassKeepsAxis(s, p, Qpc, dp);
    WallRuns(s.anchor.aFake, s.anchor.aReal, p.rate, s.now.quit, dq);
  }

  lemma RateKeepsAxis(s: Session, axis: Axis, rate: nat)
    requires AxisFits(s, axis) && s.released.On(axis) == 0 && s.released.quit == 0
    requires s.now.On(axis) <= I64_MAX
    ensures AxisFits(s.Step(Rate(rate)), axis) && s.Step(Rate(rate)).Reading(axis) == s.Reading(axis)
  {
    LineRuns(s.anchor.Get(BaseField(axis)), s.anchor.Get(OriginField(axis)), s.anchor.multiplier, s.now.On(axis), 0);
  }

  lemma RateKeeps(s: Session, p: Promise, rate: nat)
    requires Keeps(s, p) && s.now.quit <= I64_MAX && s.now.qpc <= I64_MAX
    ensures Keeps(s.Step(Rate(rate)), p.Step(Rate(rate)))
  {
    if !s.Gone() {
      RateKeepsAxis(s, Quit, rate);
      RateKeepsAxis(s, Qpc, rate);
    }
  }

  lemma LetGoKeepsAxis(s: Session, axis: Axis, dq: Margin, dp: Margin)
    requires AxisFits(s, axis) && s.released.quit == 0 && 0 <= s.now.quit && 0 <= s.now.qpc
    ensures AxisFits(s.Step(LetGo(dq, dp)), axis) && s.Step(LetGo(dq, dp)).Reading(axis) == s.Reading(axis)
  {
  }

  lemma StepKeeps(s: Session, p: Promise, e: Event)
    requires Keeps(s, p)
    requires s.Step(e).now.quit <= I64_MAX && s.Step(e).now.qpc <= I64_MAX
    requires e.Jump? ==> IsMoment(e.to)
    ensures Keeps(s.Step(e), p.Step(e))
  {
    match e
    case Pass(dq, dp) => PassKeeps(s, p, dq, dp);
    case Rate(m) => RateKeeps(s, p, m);
    case Jump(_) =>
    case LetGo(dq, dp) =>
      if !s.Gone() {
        LetGoKeepsAxis(s, Quit, dq, dp);
        LetGoKeepsAxis(s, Qpc, dq, dp);
      }
  }

  /** After any course of real time, rate changes, jumps of the wall and a release, every duration axis
      reads the sum of real time by its rate (never below one), cut at the end of the range, and the
      wall reads its last moment and the real time by the rate since, held inside its range. */
  lemma {:induction false} EveryAxisIsTheSumOfItsRates(s: Session, p: Promise, events: seq<Event>)
    requires Keeps(s, p) && Jumps(events)
    requires s.Run(events).now.quit <= I64_MAX && s.Run(events).now.qpc <= I64_MAX
    ensures Keeps(s.Run(events), p.Run(events))
    ensures s.Reading(Quit) <= s.Run(events).Reading(Quit) && s.Reading(Qpc) <= s.Run(events).Reading(Qpc)
    decreases |events|
  {
    if events != [] {
      var (e, rest) := (events[0], events[1..]);
      ClocksRunOn(s.Step(e), rest);
      StepKeeps(s, p, e);
      EveryAxisIsTheSumOfItsRates(s.Step(e), p.Step(e), rest);
      PromiseRunsOn(p, e);
    }
  }

  lemma {:induction false} ClocksRunOn(s: Session, events: seq<Event>)
    ensures s.now.quit <= s.Run(events).now.quit && s.now.qpc <= s.Run(events).now.qpc
    decreases |events|
  {
    if events != [] {
      ClocksRunOn(s.Step(events[0]), events[1..]);
    }
  }

  lemma PromiseRunsOn(p: Promise, e: Event)
    ensures p.quit <= p.Step(e).quit && p.qpc <= p.Step(e).qpc
  {
    if e.Pass? {
      MulMonotone(0, p.HeldTicks(Quit, e.quit), AtLeast(1, p.rate));
      MulMonotone(0, p.HeldTicks(Qpc, e.qpc), AtLeast(1, p.rate));
    }
  }

  /** The whole of it from the start of a session. */
  lemma ASessionKeepsItsPromise(wall: int, offset: int, start: Clocks, rate: nat, events: seq<Event>)
    requires IsMoment(wall) && 0 <= start.quit && 0 <= start.qpc && Jumps(events)
    requires var s := Opened(wall, offset, start, rate).Run(events);
             s.now.quit <= I64_MAX && s.now.qpc <= I64_MAX
    ensures var (s, p) := (Opened(wall, offset, start, rate).Run(events), Promised(wall, start, rate).Run(events));
            && s.Reading(Quit) == Saturate(p.quit) && s.Reading(Qpc) == Saturate(p.qpc)
            && s.Wall() == ClampWall(p.wall)
  {
    ClocksRunOn(Opened(wall, offset, start, rate), events);
    EveryAxisIsTheSumOfItsRates(Opened(wall, offset, start, rate), Promised(wall, start, rate), events);
  }

  /** An axis at the end of its range is never a silent one: over any stretch of real time it either
      advanced by exactly the time and its rate, or it stands at the top and says so. */
  lemma AStandingAxisIsReported(s: Session, p: Promise, dq: nat, dp: nat)
    requires Keeps(s, p) && !s.Gone() && s.now.quit + dq <= I64_MAX
    ensures var t := s.Step(Pass(dq, dp));
      if t.AtRangeEnd() then t.Reading(Quit) == I64_MAX
      else t.Reading(Quit) == s.Reading(Quit) + dq * AtLeast(1, p.rate)
    ensures s.Reading(Quit) < I64_MAX ==>
      (s.Step(Pass(dq, dp)).AtRangeEnd() <==> s.Reading(Quit) + dq * AtLeast(1, p.rate) > I64_MAX)
  {
    LineRuns(s.anchor.quitC0, s.anchor.q0, p.rate, s.now.quit, dq);
    var m := AtLeast(1, p.rate);
    assert (s.now.quit + dq - s.anchor.q0) * m == (s.now.quit - s.anchor.q0) * m + dq * m;
    MulMonotone(0, s.now.quit - s.anchor.q0, m);
  }
}
