/** The anchor block read and written at once, one field at a time: the writer's stores, the readers of any number
    of processes and the real clocks in every interleaving, with the core killed anywhere, each process let go in
    its own time, and readers that give up waiting for a write. */
module SessionReaders {
  import opened SessionClock

  /** Where the writer stands. A jump takes its clock before its write, a rate change inside it. */
  datatype Writer =
    | Idle
    | RateOpen(rate: int)
    | RateTimed(rate: int, quit: int)
    | StoringRate(was: Anchor, rate: int, quit: int, qpc: int, done: nat)
    | StoringJump(was: Anchor, to: int, at: int, done: nat)
  {
    /** The stores of the write under way, in order, and the block they end with. */
    function Order(): seq<Field> { if StoringRate? then FULL_ORDER else WALL_ORDER }

    function Target(): Anchor
      requires StoringRate? || StoringJump?
    {
      if StoringRate? then Rebased(was, rate, quit, qpc) else Jumped(was, to, at)
    }

    predicate Storing() { StoringRate? || StoringJump? }

    predicate ChangingRate() { RateOpen? || RateTimed? || StoringRate? }
  }

  /** What a reader saw of the sequence number when it began to read; nothing, if its patience ran out. */
  datatype Look = At(seqno: nat) | Blind

  /** One reading of one axis. `floors` are the largest values each process had been given when it began. */
  datatype Reader =
    | Resting
    | Begun(axis: Axis, floors: seq<Clocks>)
    | Loading(axis: Axis, floors: seq<Clocks>, look: Look, seen: map<Field, int>)
    | Timed(axis: Axis, floors: seq<Clocks>, look: Look, seen: map<Field, int>, clock: int)
    | Settled(axis: Axis, floors: seq<Clocks>, seen: map<Field, int>, clock: int)
    | Answered(axis: Axis, floors: seq<Clocks>, clock: int, value: int)

  /** `homes` is the process of each reader; `released` where each process is let go (0 while it is held) and
      `highest` what it was given at most, by process; `givenUp` that a reader gave up on the open rate change. */
  datatype Shared = Shared(
    anchor: Anchor,
    seqno: nat,
    writer: Writer,
    givenUp: bool,
    alive: bool,
    now: Clocks,
    homes: seq<nat>,
    released: seq<Clocks>,
    readers: seq<Reader>,
    highest: seq<Clocks>)

  datatype Action =
    | Tick(quit: nat, qpc: nat)
    | OpenRate(rate: int)
    | ReadQuit
    | ReadQpc
    | OpenJump(to: int, at: int)
    | StoreNext
    | Close
    | Kill
    | LetGo(process: nat, axis: Axis, at: int)
    | Begin(i: nat, axis: Axis)
    | TakeLook(i: nat)
    | GiveUp(i: nat)
    | Load(i: nat, f: Field)
    | TakeClock(i: nat)
    | LookAgain(i: nat)
    | Answer(i: nat)

  predicate Loaded(axis: Axis, seen: map<Field, int>) {
    BaseField(axis) in seen && OriginField(axis) in seen && Multiplier in seen
  }

  /** The value of a reading from the fields it loaded, its clock and the instant of a release. */
  function Value(axis: Axis, seen: map<Field, int>, releasedAt: int, clock: int): int
    requires Loaded(axis, seen)
  {
    ReleasedAt(seen[BaseField(axis)], seen[OriginField(axis)], seen[Multiplier], releasedAt, clock)
  }

  function SetOn(c: Clocks, axis: Axis, v: int): Clocks {
    if axis == Quit then c.(quit := v) else c.(qpc := v)
  }

  function Raise(c: Clocks, axis: Axis, v: int): Clocks { SetOn(c, axis, AtLeast(c.On(axis), v)) }

  predicate Shaped(s: Shared) {
    && |s.homes| == |s.readers| && |s.released| == |s.highest|
    && forall i :: 0 <= i < |s.homes| ==> s.homes[i] < |s.released|
  }

  /** What the writer does; nothing, once it is dead or where the write does not stand so. */
  function WriterStep(s: Shared, a: Action): Shared
    requires a.OpenRate? || a.ReadQuit? || a.ReadQpc? || a.OpenJump? || a.StoreNext? || a.Close?
  {
    if !s.alive then s
    else
      match a
      case OpenRate(m) => if s.writer.Idle? then s.(seqno := s.seqno + 1, writer := RateOpen(m)) else s
      case ReadQuit => if s.writer.RateOpen? then s.(writer := RateTimed(s.writer.rate, s.now.quit)) else s
      case ReadQpc =>
        if s.writer.RateTimed? then s.(writer := StoringRate(s.anchor, s.writer.rate, s.writer.quit, s.now.qpc, 0))
        else s
      case OpenJump(to, at) =>
        if s.writer.Idle? then s.(seqno := s.seqno + 1, writer := StoringJump(s.anchor, to, at, 0)) else s
      case StoreNext =>
        if s.writer.Storing() && s.writer.done < |s.writer.Order()| then
          var f := s.writer.Order()[s.writer.done];
          s.(anchor := s.anchor.Set(f, s.writer.Target().Get(f)), writer := s.writer.(done := s.writer.done + 1))
        else s
      case Close =>
        if s.writer.Storing() && s.writer.done == |s.writer.Order()| then
          s.(seqno := s.seqno + 1, writer := Idle, givenUp := false)
        else s
  }

  predicate CanLetGo(s: Shared, p: nat, axis: Axis, at: int) {
    !s.alive && p < |s.released| && s.released[p].On(axis) == 0 && 0 < at
  }

  /** One step of the machine; an action that cannot be taken where things stand changes nothing. */
  function Step(s: Shared, a: Action): Shared {
    match a
    case Tick(dq, dp) => s.(now := Clocks(s.now.quit + dq, s.now.qpc + dp))
    case Kill => s.(alive := false)
    case LetGo(p, axis, at) =>
      // The instant was chosen a margin after a clock read earlier; how much earlier, nothing bounds.
      if CanLetGo(s, p, axis, at) then s.(released := s.released[p := SetOn(s.released[p], axis, at)]) else s
    case Begin(i, _) => if i < |s.readers| && Shaped(s) then ReaderStep(s, a, i) else s
    case TakeLook(i) => if i < |s.readers| && Shaped(s) then ReaderStep(s, a, i) else s
    case GiveUp(i) => if i < |s.readers| && Shaped(s) then ReaderStep(s, a, i) else s
    case Load(i, _) => if i < |s.readers| && Shaped(s) then ReaderStep(s, a, i) else s
    case TakeClock(i) => if i < |s.readers| && Shaped(s) then ReaderStep(s, a, i) else s
    case LookAgain(i) => if i < |s.readers| && Shaped(s) then ReaderStep(s, a, i) else s
    case Answer(i) => if i < |s.readers| && Shaped(s) then ReaderStep(s, a, i) else s
    case _ => WriterStep(s, a)
  }

  predicate IsReading(a: Action) {
    a.Begin? || a.TakeLook? || a.GiveUp? || a.Load? || a.TakeClock? || a.LookAgain? || a.Answer?
  }

  function ReaderStep(s: Shared, a: Action, i: nat): Shared
    requires IsReading(a) && i < |s.readers| && Shaped(s)
  {
    var r, home := s.readers[i], s.homes[i];
    match a
    case Begin(_, axis) =>
      if r.Resting? || r.Answered? then s.(readers := s.readers[i := Begun(axis, s.highest)]) else s
    case TakeLook(_) =>
      if r.Begun? && s.seqno % 2 == 0 then
        s.(readers := s.readers[i := Loading(r.axis, r.floors, At(s.seqno), map[])])
      else s
    case GiveUp(_) =>
      // The bound ran out, or the write was found to be one given up on before: read as it stands.
      if r.Begun? then
        s.(readers := s.readers[i := Loading(r.axis, r.floors, Blind, map[])],
           givenUp := s.givenUp || s.writer.ChangingRate())
      else s
    case Load(_, f) =>
      if r.Loading? then
        s.(readers := s.readers[i := Loading(r.axis, r.floors, r.look, r.seen[f := s.anchor.Get(f)])])
      else s
    case TakeClock(_) =>
      if r.Loading? && Loaded(r.axis, r.seen) then
        s.(readers := s.readers[i := Timed(r.axis, r.floors, r.look, r.seen, s.now.On(r.axis))])
      else s
    case LookAgain(_) =>
      if !r.Timed? || !Loaded(r.axis, r.seen) then s
      else if r.look.At? && r.look.seqno != s.seqno then s.(readers := s.readers[i := Begun(r.axis, r.floors)])
      else
        var v := Value(r.axis, r.seen, s.released[home].On(r.axis), r.clock);
        s.(readers := s.readers[i := Settled(r.axis, r.floors, r.seen, r.clock)],
           highest := s.highest[home := Raise(s.highest[home], r.axis, v)])
    case Answer(_) =>
      // The instant of a release is looked at after the clock.
      if r.Settled? && Loaded(r.axis, r.seen) then
        s.(readers := s.readers[i := Answered(r.axis, r.floors, r.clock,
             Value(r.axis, r.seen, s.released[home].On(r.axis), r.clock))])
      else s
  }

  function Run(s: Shared, actions: seq<Action>): Shared
    decreases |actions|
  {
    if actions == [] then s else Run(Step(s, actions[0]), actions[1..])
  }

  // --- A write that was given up on ---

  /** A step of a rate change: its opening, the clocks it is made at, its stores and its end. */
  predicate IsRateStep(s: Shared, a: Action) {
    s.alive && (|| (a.OpenRate? && s.writer.Idle?)
                || (s.writer.ChangingRate() && (a.ReadQuit? || a.ReadQpc? || a.StoreNext? || a.Close?)))
  }

  predicate ReadsBlind(r: Reader) { (r.Loading? || r.Timed?) && r.look.Blind? }

  /** An instant is published before the clock it names is past. */
  predicate InTime(s: Shared, a: Action) {
    a.LetGo? && CanLetGo(s, a.process, a.axis, a.at) ==> s.now.On(a.axis) <= a.at
  }

  /** No rate change goes on that a reader gave up on, or under a reader that reads without looking, and no instant is
      published late. */
  predicate Respected(s: Shared, a: Action) {
    && (IsRateStep(s, a) ==> !s.givenUp && forall i :: 0 <= i < |s.readers| ==> !ReadsBlind(s.readers[i]))
    && InTime(s, a)
  }

  predicate RespectedRun(s: Shared, actions: seq<Action>)
    decreases |actions|
  {
    actions != [] ==> Respected(s, actions[0]) && RespectedRun(Step(s, actions[0]), actions[1..])
  }

  // --- Lines of processes let go at different instants ---

  /** A reading of one process bounds a later one of another: the same process, one not let go by the clock of the
      later reading, one let go no earlier, or a session that does not run fast or stands at the top. */
  predicate Bounds(s: Shared, p: nat, q: nat, axis: Axis, clock: int)
    requires p < |s.released| && q < |s.released|
  {
    var (first, second) := (s.released[p].On(axis), s.released[q].On(axis));
    p == q || clock <= second || InOrder(s.anchor, axis, first, second)
  }

  /** The line of a process let go at the first instant never passes that of one let go at the second. */
  predicate InOrder(a: Anchor, axis: Axis, first: int, second: int) {
    second == 0 || 0 < first <= second || a.multiplier <= 1 || Reads(a, axis, second) >= I64_MAX - 1
  }

  lemma RunsOn(a: Anchor, axis: Axis, released: int, earlier: int, later: int)
    requires IsI64(a.Get(BaseField(axis))) && earlier <= later
    ensures ReadsReleased(a, axis, released, earlier) <= ReadsReleased(a, axis, released, later)
  {
    var (base, origin) := (a.Get(BaseField(axis)), a.Get(OriginField(axis)));
    if released == 0 || later < released {
      DurationMonotone(base, origin, a.multiplier, earlier, later);
    } else if earlier < released {
      DurationMonotone(base, origin, a.multiplier, earlier, released);
    }
  }

  function Capped(x: int): int { if x > I64_MAX then I64_MAX else x }

  /** A line from a base at or above zero, read no earlier than its origin, is its exact value cut at the top. */
  lemma LineIs(base: int, origin: int, rate: int, clock: int)
    requires 0 <= base <= I64_MAX && origin <= clock
    ensures DurationAt(base, origin, rate, clock) == Capped(base + (clock - origin) * AtLeast(1, rate))
    ensures (clock - origin) * AtLeast(1, rate) >= clock - origin
  {
    MulMonotone(1, AtLeast(1, rate), clock - origin);
    if clock - origin > I64_MAX {
      MulMonotone(1, AtLeast(1, rate), I64_MAX);
    }
  }

  lemma Steeper(base: int, origin: int, rate: int, earlier: int, later: int)
    requires 0 <= base <= I64_MAX && origin <= earlier <= later
    ensures DurationAt(base, origin, rate, later)
         == Capped(DurationAt(base, origin, rate, earlier) + (later - earlier) * AtLeast(1, rate))
    ensures (later - earlier) * AtLeast(1, rate) >= later - earlier
  {
    hide DurationAt;
    var m := AtLeast(1, rate);
    LineIs(base, origin, rate, earlier);
    LineIs(base, origin, rate, later);
    MulMonotone(1, m, later - earlier);
    assert (later - origin) * m == (earlier - origin) * m + (later - earlier) * m;
  }

  predicate LineFits(a: Anchor, axis: Axis, clock: int) {
    0 <= a.Get(BaseField(axis)) <= I64_MAX && a.Get(OriginField(axis)) <= clock
  }

  /** A process let go reads its session's line up to the instant and the real rate from there. */
  lemma LetGoLine(a: Anchor, axis: Axis, released: int, clock: int)
    requires 0 < released <= clock && LineFits(a, axis, released)
    ensures ReadsReleased(a, axis, released, clock) == Capped(Reads(a, axis, released) + clock - released)
  {
    LineIs(a.Get(BaseField(axis)), a.Get(OriginField(axis)), a.multiplier, released);
  }

  /** The line of a process let go is nowhere above that of one held, or let go later. */
  lemma HeldLongerIsFurther(a: Anchor, axis: Axis, first: int, second: int, clock: int)
    requires LineFits(a, axis, clock) && (first != 0 ==> 0 < first && LineFits(a, axis, first))
    requires clock <= second || InOrder(a, axis, first, second)
    requires second != 0 ==> 0 < second && LineFits(a, axis, second)
    ensures ReadsReleased(a, axis, first, clock) <= ReadsReleased(a, axis, second, clock)
  {
    var (base, origin) := (a.Get(BaseField(axis)), a.Get(OriginField(axis)));
    if 0 < first <= clock {
      LetGoLine(a, axis, first, clock);
      Steeper(base, origin, a.multiplier, first, clock);
    }
    if 0 < second <= clock {
      LetGoLine(a, axis, second, clock);
      Steeper(base, origin, a.multiplier, second, clock);
      if 0 < first <= second {
        Steeper(base, origin, a.multiplier, first, second);
      }
    }
  }

  /** A later reading of a process let go at the second instant is at least every earlier one of a process let go
      at the first, exactly if they are in order. */
  lemma AcrossProcessesIff(a: Anchor, axis: Axis, first: int, second: int)
    requires LineFits(a, axis, a.Get(OriginField(axis)))
    requires first != 0 ==> 0 < first && LineFits(a, axis, first)
    requires second != 0 ==> 0 < second && LineFits(a, axis, second)
    ensures (forall c, d :: a.Get(OriginField(axis)) <= c <= d ==>
              ReadsReleased(a, axis, first, c) <= ReadsReleased(a, axis, second, d))
            <==> InOrder(a, axis, first, second)
  {
    hide DurationAt, ReleasedAt, Saturate;
    var (base, origin) := (a.Get(BaseField(axis)), a.Get(OriginField(axis)));
    if InOrder(a, axis, first, second) {
      forall c, d | origin <= c <= d ensures ReadsReleased(a, axis, first, c) <= ReadsReleased(a, axis, second, d) {
        HeldLongerIsFurther(a, axis, first, second, c);
        RunsOn(a, axis, second, c, d);
      }
    } else {
      JustPastTheInstant(a, axis, first, second);
    }
  }

  /** One tick past the second instant, out of order. */
  lemma JustPastTheInstant(a: Anchor, axis: Axis, first: int, second: int)
    requires 0 < second && LineFits(a, axis, second) && !InOrder(a, axis, first, second)
    requires first != 0 ==> 0 < first && LineFits(a, axis, first)
    ensures ReadsReleased(a, axis, first, second + 1) > ReadsReleased(a, axis, second, second + 1)
  {
    var (base, origin) := (a.Get(BaseField(axis)), a.Get(OriginField(axis)));
    LetGoLine(a, axis, second, second + 1);
    Steeper(base, origin, a.multiplier, second, second + 1);
    if first == second + 1 {
      LetGoLine(a, axis, first, first);
    }
  }

  // --- What every step keeps ---

  predicate BelowLine(s: Shared, a: Anchor, axis: Axis, clock: int) {
    forall p :: 0 <= p < |s.highest| ==> s.highest[p].On(axis) <= Reads(a, axis, clock)
  }

  predicate WriterFits(s: Shared, axis: Axis) {
    && (s.seqno % 2 == 0 <==> s.writer.Idle?)
    && (s.givenUp ==> s.writer.ChangingRate())
    && match s.writer
       case Idle => true
       case RateOpen(_) => true
       case RateTimed(_, quit) =>
         && quit <= s.now.quit
         && (axis == Quit ==> LineFits(s.anchor, axis, quit) && (!s.givenUp ==> BelowLine(s, s.anchor, axis, quit)))
       case StoringRate(was, rate, quit, qpc, done) =>
         // No reading of the old line has passed the clocks the change was made at.
         && Starts(was) && done <= 8 && s.anchor == Stored(was, s.writer.Target(), FULL_ORDER, done)
         && quit <= s.now.quit && qpc <= s.now.qpc && LineFits(was, axis, Clocks(quit, qpc).On(axis))
         && (!s.givenUp ==> BelowLine(s, was, axis, Clocks(quit, qpc).On(axis)))
       case StoringJump(was, to, at, done) =>
         done <= 3 && s.anchor == Stored(was, s.writer.Target(), WALL_ORDER, done)
  }

  predicate Agrees(a: Anchor, axis: Axis, seen: map<Field, int>) {
    && (BaseField(axis) in seen ==> seen[BaseField(axis)] == a.Get(BaseField(axis)))
    && (OriginField(axis) in seen ==> seen[OriginField(axis)] == a.Get(OriginField(axis)))
    && (Multiplier in seen ==> seen[Multiplier] == a.multiplier)
  }

  /** Whether what a reader holds was all read from the block as it stands. */
  predicate IsFresh(s: Shared, look: Look) { look.Blind? || look.seqno == s.seqno }

  predicate LookFits(s: Shared, look: Look) { look.At? ==> look.seqno % 2 == 0 && look.seqno <= s.seqno }

  predicate FloorsFit(s: Shared, axis: Axis, floors: seq<Clocks>) {
    |floors| == |s.highest| && forall p :: 0 <= p < |floors| ==> floors[p].On(axis) <= s.highest[p].On(axis)
  }

  /** A value no lower than what each process had been given that bounds it. */
  predicate AtLeastFloors(s: Shared, q: nat, axis: Axis, floors: seq<Clocks>, clock: int, value: int)
    requires Shaped(s) && q < |s.released| && |floors| == |s.highest|
  {
    forall p :: 0 <= p < |floors| && Bounds(s, p, q, axis, clock) ==> floors[p].On(axis) <= value
  }

  predicate ReaderFits(s: Shared, axis: Axis, i: nat)
    requires Shaped(s) && i < |s.readers|
  {
    var q := s.homes[i];
    match s.readers[i]
    case Resting => true
    case Begun(x, floors) => x == axis ==> FloorsFit(s, axis, floors)
    case Loading(x, floors, look, seen) =>
      x == axis ==> FloorsFit(s, axis, floors) && LookFits(s, look) && (IsFresh(s, look) ==> Agrees(s.anchor, axis, seen))
    case Timed(x, floors, look, seen, clock) =>
      x == axis ==>
        && FloorsFit(s, axis, floors) && LookFits(s, look) && Loaded(axis, seen) && clock <= s.now.On(axis)
        && (IsFresh(s, look) ==>
              && Agrees(s.anchor, axis, seen)
              && AtLeastFloors(s, q, axis, floors, clock, Value(axis, seen, s.released[q].On(axis), clock)))
    case Settled(x, floors, seen, clock) =>
      x == axis ==>
        && FloorsFit(s, axis, floors) && Loaded(axis, seen) && clock <= s.now.On(axis)
        && AtLeastFloors(s, q, axis, floors, clock, Value(axis, seen, s.released[q].On(axis), clock))
        && Value(axis, seen, s.released[q].On(axis), clock) <= s.highest[q].On(axis)
    case Answered(x, floors, clock, value) =>
      x == axis ==>
        && FloorsFit(s, axis, floors) && clock <= s.now.On(axis)
        && AtLeastFloors(s, q, axis, floors, clock, value) && value <= s.highest[q].On(axis)
  }

  /** Where a process may be: held, or let go at an instant of a dead core's session no earlier than its origin. */
  predicate ProcessFits(s: Shared, axis: Axis, p: nat)
    requires p < |s.released| && |s.released| == |s.highest|
  {
    var at := s.released[p].On(axis);
    && (at != 0 ==> !s.alive && 0 < at && LineFits(s.anchor, axis, at))
    && s.highest[p].On(axis) <= ReadsReleased(s.anchor, axis, at, s.now.On(axis))
  }

  predicate Inv(s: Shared, axis: Axis) {
    && Shaped(s) && Starts(s.anchor) && WriterFits(s, axis) && LineFits(s.anchor, axis, s.now.On(axis))
    && (forall p :: 0 <= p < |s.released| ==> ProcessFits(s, axis, p))
    && (forall i :: 0 <= i < |s.readers| ==> ReaderFits(s, axis, i))
    && (s.writer.ChangingRate() && !s.givenUp ==> forall i :: 0 <= i < |s.readers| ==> !ReadsBlind(s.readers[i]))
  }

  // --- Every step keeps the invariant ---

  lemma TickKeeps(s: Shared, axis: Axis, dq: nat, dp: nat)
    requires Inv(s, axis)
    ensures Inv(Step(s, Tick(dq, dp)), axis)
  {
    hide DurationAt, ReleasedAt;
    var t := Step(s, Tick(dq, dp));
    forall p | 0 <= p < |t.released| ensures ProcessFits(t, axis, p) {
      assert ProcessFits(s, axis, p);
      RunsOn(s.anchor, axis, s.released[p].On(axis), s.now.On(axis), t.now.On(axis));
    }
    forall i | 0 <= i < |t.readers| ensures ReaderFits(t, axis, i) {
      assert ReaderFits(s, axis, i);
    }
  }

  /** A step that stores nothing: it leaves no reader fresh that was not, and no line changed. */
  lemma OpenKeeps(s: Shared, axis: Axis, a: Action)
    requires Inv(s, axis) && Respected(s, a) && (a.OpenRate? || a.OpenJump? || a.Close?)
    ensures Inv(Step(s, a), axis)
  {
    assert WriterFits(Step(s, a), axis) by {
      hide Reads, Rebased, Jumped, ReaderFits, ProcessFits, LineFits;
    }
    hide WriterFits, ProcessFits, ReaderFits, LineFits, Starts;
    WriterMoves(s, Step(s, a), axis);
  }

  lemma BelowHeld(s: Shared, axis: Axis)
    requires Inv(s, axis) && s.alive
    ensures BelowLine(s, s.anchor, axis, s.now.On(axis))
  {
    forall p | 0 <= p < |s.highest| ensures s.highest[p].On(axis) <= Reads(s.anchor, axis, s.now.On(axis)) {
      assert ProcessFits(s, axis, p);
    }
  }

  lemma TimeKeeps(s: Shared, axis: Axis, a: Action)
    requires Inv(s, axis) && Respected(s, a) && (a.ReadQuit? || a.ReadQpc? || a.Kill?)
    ensures Inv(Step(s, a), axis)
  {
    TimeFits(s, axis, a);
    hide WriterFits, ProcessFits, ReaderFits, LineFits, Respected;
    WriterMoves(s, Step(s, a), axis);
  }

  /** The writer moves, with the number of its write, or dies; nothing else changes. */
  predicate OnlyTheWriter(s: Shared, t: Shared) {
    && t == s.(writer := t.writer, alive := t.alive, seqno := t.seqno, givenUp := t.givenUp)
    && (t.alive ==> s.alive) && s.seqno <= t.seqno
  }

  lemma WriterMoves(s: Shared, t: Shared, axis: Axis)
    requires Inv(s, axis) && OnlyTheWriter(s, t) && WriterFits(t, axis)
    requires t.writer.ChangingRate() && !t.givenUp ==>
      forall i :: 0 <= i < |s.readers| ==> !ReadsBlind(s.readers[i])
    ensures Inv(t, axis)
  {
    hide WriterFits, Reads, Value, ReadsReleased, LineFits, Agrees, AtLeastFloors;
    forall p | 0 <= p < |t.released| ensures ProcessFits(t, axis, p) {
      assert ProcessFits(s, axis, p);
    }
    forall i | 0 <= i < |t.readers| ensures ReaderFits(t, axis, i) {
      SameFloors(s, t, axis, i);
    }
  }

  lemma SameFloors(s: Shared, t: Shared, axis: Axis, i: nat)
    requires Shaped(s) && OnlyTheWriter(s, t) && i < |s.readers| && ReaderFits(s, axis, i)
    ensures Shaped(t) && ReaderFits(t, axis, i)
  {
    hide Reads, Value, Agrees;
  }

  /** The clocks a rate change is made at lie where the axis has come to. */
  lemma TimeFits(s: Shared, axis: Axis, a: Action)
    requires Inv(s, axis) && Respected(s, a) && (a.ReadQuit? || a.ReadQpc? || a.Kill?)
    ensures WriterFits(Step(s, a), axis)
  {
    hide DurationAt, ReleasedAt, ReaderFits, ProcessFits;
    if s.alive {
      BelowHeld(s, axis);
    }
  }

  lemma NotYetLetGo(base: int, origin: int, rate: int, at: int, clock: int)
    requires clock <= at
    ensures ReleasedAt(base, origin, rate, at, clock) == ReleasedAt(base, origin, rate, 0, clock)
  {
  }

  lemma LetGoKeeps(s: Shared, axis: Axis, process: nat, x: Axis, at: int)
    requires Inv(s, axis) && Respected(s, LetGo(process, x, at))
    ensures Inv(Step(s, LetGo(process, x, at)), axis)
  {
    hide DurationAt, ReleasedAt;
    var t := Step(s, LetGo(process, x, at));
    if CanLetGo(s, process, x, at) {
      forall p | 0 <= p < |t.released| ensures ProcessFits(t, axis, p) {
        assert ProcessFits(s, axis, p);
        if x == axis {
          NotYetLetGo(s.anchor.Get(BaseField(axis)), s.anchor.Get(OriginField(axis)), s.anchor.multiplier, at,
                      s.now.On(axis));
        }
      }
      forall i | 0 <= i < |t.readers| ensures ReaderFits(t, axis, i) {
        ReaderLetGo(s, axis, process, x, at, i);
      }
    }
  }

  /** Bounding one process by another is not changed by an instant past the clock. */
  lemma BoundsStand(s: Shared, axis: Axis, process: nat, x: Axis, at: int, q: nat, clock: int)
    requires Shaped(s) && q < |s.released| && clock <= s.now.On(axis) && CanLetGo(s, process, x, at)
    requires s.now.On(x) <= at
    ensures var t := Step(s, LetGo(process, x, at));
      && Shaped(t) && |t.released| == |s.released|
      && (t.released[q].On(axis) == s.released[q].On(axis)
          || (s.released[q].On(axis) == 0 && clock <= t.released[q].On(axis)))
      && forall p :: 0 <= p < |s.released| && Bounds(t, p, q, axis, clock) ==> Bounds(s, p, q, axis, clock)
  {
    hide Reads;
  }

  /** The instant lies past every clock a reader took, so no value changes by it. */
  lemma ReaderLetGo(s: Shared, axis: Axis, process: nat, x: Axis, at: int, i: nat)
    requires Inv(s, axis) && i < |s.readers| && CanLetGo(s, process, x, at) && s.now.On(x) <= at
    ensures var t := Step(s, LetGo(process, x, at)); Shaped(t) && ReaderFits(t, axis, i)
  {
    hide Value, Reads, WriterFits, ProcessFits, LineFits, Bounds, Agrees;
    assert ReaderFits(s, axis, i);
    var (r, t) := (s.readers[i], Step(s, LetGo(process, x, at)));
    assert t == s.(released := t.released) && |t.released| == |s.released|;
    hide Step;
    if (r.Timed? || r.Settled? || r.Answered?) && r.axis == axis {
      BoundsStand(s, axis, process, x, at, s.homes[i], r.clock);
      if !r.Answered? {
        ValueStands(axis, r.seen, s.released[s.homes[i]].On(axis), t.released[s.homes[i]].On(axis), r.clock);
      }
    }
  }

  /** A release at an instant past the clock changes no value. */
  lemma ValueStands(axis: Axis, seen: map<Field, int>, released: int, later: int, clock: int)
    requires Loaded(axis, seen) && (later == released || (released == 0 && clock <= later))
    ensures Value(axis, seen, later, clock) == Value(axis, seen, released, clock)
  {
    if later != released {
      NotYetLetGo(seen[BaseField(axis)], seen[OriginField(axis)], seen[Multiplier], later, clock);
    }
  }

  /** A store of the writer leaves no line below what was given, and no reader fresh. */
  lemma StoreKeeps(s: Shared, axis: Axis)
    requires Inv(s, axis) && Respected(s, StoreNext)
    ensures Inv(Step(s, StoreNext), axis)
  {
    hide WallAt, DurationAt, ReleasedAt;
    var t := Step(s, StoreNext);
    if t != s {
      hide Stored, Rebased, Jumped, WriterFits;
      StoredFits(s, axis);
      forall p | 0 <= p < |t.released| ensures ProcessFits(t, axis, p) {
        assert ProcessFits(s, axis, p);
        HeldLine(t.anchor, axis, t.now.On(axis));
        HeldLine(s.anchor, axis, s.now.On(axis));
      }
      forall i | 0 <= i < |t.readers| ensures ReaderFits(t, axis, i) {
        assert ReaderFits(s, axis, i) && ProcessFits(s, axis, s.homes[i]);
      }
    }
  }

  lemma HeldLine(a: Anchor, axis: Axis, clock: int)
    ensures ReadsReleased(a, axis, 0, clock) == Reads(a, axis, clock)
  {
  }

  /** What a store may change of the block, for one axis. */
  predicate StoresWell(s: Shared, t: Shared, axis: Axis) {
    && Starts(t.anchor) && WriterFits(t, axis) && LineFits(t.anchor, axis, t.now.On(axis))
    && (if s.writer.StoringJump? then
          t.anchor.Get(BaseField(axis)) == s.anchor.Get(BaseField(axis))
          && t.anchor.Get(OriginField(axis)) == s.anchor.Get(OriginField(axis))
          && t.anchor.multiplier == s.anchor.multiplier
        else BelowLine(t, t.anchor, axis, t.now.On(axis)))
  }

  lemma StoredFits(s: Shared, axis: Axis)
    requires Inv(s, axis) && Respected(s, StoreNext) && Step(s, StoreNext) != s
    ensures StoresWell(s, Step(s, StoreNext), axis)
  {
    if s.writer.StoringRate? {
      RateStoredFits(s, axis);
    } else {
      var w := s.writer;
      hide ReaderFits, ProcessFits;
      StoredJump(w.was, w.to, w.at, w.done);
      StoredJump(w.was, w.to, w.at, w.done + 1);
    }
  }

  lemma RateStoredFits(s: Shared, axis: Axis)
    requires Inv(s, axis) && Respected(s, StoreNext) && Step(s, StoreNext) != s && s.writer.StoringRate?
    ensures StoresWell(s, Step(s, StoreNext), axis)
  {
    hide WallAt, DurationAt, ReaderFits, ProcessFits, Rebased, LineFits, Starts;
    var (w, t) := (s.writer, Step(s, StoreNext));
    PrefixFits(w.was, w.rate, Clocks(w.quit, w.qpc), w.done + 1, axis, s.now.On(axis));
  }

  /** A change of any number of stores begins where the axis stood, or further on. */
  lemma PrefixFits(was: Anchor, rate: int, at: Clocks, k: nat, axis: Axis, clock: int)
    requires Starts(was) && k <= 8 && LineFits(was, axis, at.On(axis)) && at.On(axis) <= clock
    ensures var p := Stored(was, Rebased(was, rate, at.quit, at.qpc), FULL_ORDER, k);
      Starts(p) && LineFits(p, axis, clock) && Reads(p, axis, clock) >= Reads(was, axis, at.On(axis))
  {
    hide WallAt;
    EveryPrefixRunsOn(was, rate, at, k, axis, clock);
    StoredRebase(was, rate, at.quit, at.qpc, k);
    DurationMonotone(was.Get(BaseField(axis)), was.Get(OriginField(axis)), was.multiplier, at.On(axis), at.On(axis));
    hide Reads, Stored, Rebased;
  }

  /** One reader moves, and perhaps gives up; everything else stays. */
  predicate OneMoves(s: Shared, t: Shared, i: nat) {
    && i < |s.readers| && |t.readers| == |s.readers|
    && t == s.(readers := s.readers[i := t.readers[i]], givenUp := t.givenUp)
    && (t.givenUp == s.givenUp || (t.givenUp && s.writer.ChangingRate()))
    && (s.writer.ChangingRate() && !t.givenUp ==> !ReadsBlind(t.readers[i]))
  }

  lemma OneMoveKeeps(s: Shared, t: Shared, axis: Axis, i: nat)
    requires Inv(s, axis) && OneMoves(s, t, i) && ReaderFits(t, axis, i)
    ensures Inv(t, axis)
  {
    hide DurationAt, ReleasedAt, Stored, LineFits;
    forall p | 0 <= p < |t.released| ensures ProcessFits(t, axis, p) {
      assert ProcessFits(s, axis, p);
    }
    forall k | 0 <= k < |t.readers| ensures ReaderFits(t, axis, k) {
      assert ReaderFits(s, axis, k);
    }
  }

  lemma LoadKeeps(s: Shared, axis: Axis, a: Action, i: nat)
    requires Inv(s, axis)
    requires a == TakeLook(i) || a == GiveUp(i) || (a.Load? && a.i == i) || (a.Begin? && a.i == i)
    ensures Inv(Step(s, a), axis)
  {
    hide DurationAt, ReleasedAt, Stored, LineFits, WriterFits, ProcessFits;
    var t := Step(s, a);
    if t != s {
      assert ReaderFits(s, axis, i);
      OneMoveKeeps(s, t, axis, i);
    }
  }

  lemma AnswerKeeps(s: Shared, axis: Axis, i: nat)
    requires Inv(s, axis)
    ensures Inv(Step(s, Answer(i)), axis)
  {
    hide DurationAt, ReleasedAt, Stored, LineFits, WriterFits, ProcessFits;
    var t := Step(s, Answer(i));
    if t != s {
      assert ReaderFits(s, axis, i);
      OneMoveKeeps(s, t, axis, i);
    }
  }

  /** A clock taken now: what the line gives for it is no less than what any process that bounds it was given. */
  lemma NowIsFurthest(s: Shared, axis: Axis, p: nat, q: nat)
    requires Inv(s, axis) && p < |s.released| && q < |s.released| && Bounds(s, p, q, axis, s.now.On(axis))
    ensures s.highest[p].On(axis) <= ReadsReleased(s.anchor, axis, s.released[q].On(axis), s.now.On(axis))
  {
    hide DurationAt, ReleasedAt;
    assert ProcessFits(s, axis, p) && ProcessFits(s, axis, q);
    if p != q {
      HeldLongerIsFurther(s.anchor, axis, s.released[p].On(axis), s.released[q].On(axis), s.now.On(axis));
    }
  }

  lemma ClockKeeps(s: Shared, axis: Axis, i: nat)
    requires Inv(s, axis)
    ensures Inv(Step(s, TakeClock(i)), axis)
  {
    hide DurationAt, ReleasedAt, Stored, LineFits, WriterFits, ProcessFits;
    var t := Step(s, TakeClock(i));
    if t != s {
      ClockFits(s, axis, i);
      OneMoveKeeps(s, t, axis, i);
    }
  }

  lemma ClockFits(s: Shared, axis: Axis, i: nat)
    requires Inv(s, axis) && Step(s, TakeClock(i)) != s
    ensures Shaped(Step(s, TakeClock(i))) && ReaderFits(Step(s, TakeClock(i)), axis, i)
  {
    hide DurationAt, ReleasedAt, Stored, LineFits;
    assert ReaderFits(s, axis, i);
    forall p | 0 <= p < |s.highest| && Bounds(s, p, s.homes[i], axis, s.now.On(axis))
      ensures s.highest[p].On(axis)
           <= ReadsReleased(s.anchor, axis, s.released[s.homes[i]].On(axis), s.now.On(axis))
    {
      NowIsFurthest(s, axis, p, s.homes[i]);
    }
  }

  /** Raising what one process was given takes no reader's standing away. */
  lemma RaisedFits(s: Shared, t: Shared, axis: Axis, i: nat)
    requires Shaped(s) && Shaped(t) && i < |s.readers| && ReaderFits(s, axis, i)
    requires t == s.(highest := t.highest, readers := t.readers) && t.readers[i] == s.readers[i]
    requires forall p :: 0 <= p < |s.highest| ==> s.highest[p].On(axis) <= t.highest[p].On(axis)
    ensures ReaderFits(t, axis, i)
  {
    hide DurationAt, ReleasedAt, Reads;
  }

  /** A reading that settles gives no more than its line does now. */
  lemma SettledFits(s: Shared, axis: Axis, i: nat)
    requires Inv(s, axis) && i < |s.readers| && s.readers[i].Timed? && s.readers[i].axis == axis
    requires IsFresh(s, s.readers[i].look)
    ensures var r, q := s.readers[i], s.homes[i];
      Loaded(axis, r.seen)
      && Value(axis, r.seen, s.released[q].On(axis), r.clock)
         <= ReadsReleased(s.anchor, axis, s.released[q].On(axis), s.now.On(axis))
  {
    hide DurationAt, ReleasedAt, Stored;
    assert ReaderFits(s, axis, i);
    RunsOn(s.anchor, axis, s.released[s.homes[i]].On(axis), s.readers[i].clock, s.now.On(axis));
  }

  lemma LookAgainKeeps(s: Shared, axis: Axis, i: nat)
    requires Inv(s, axis)
    ensures Inv(Step(s, LookAgain(i)), axis)
  {
    hide DurationAt, ReleasedAt, Stored, LineFits;
    var t := Step(s, LookAgain(i));
    if t != s {
      assert ReaderFits(s, axis, i);
      if t.readers[i].Begun? {
        OneMoveKeeps(s, t, axis, i);
      } else {
        if s.readers[i].axis == axis {
          SettledFits(s, axis, i);
        }
        SettleKeeps(s, t, axis, i);
      }
    }
  }

  /** What settling does to the rest: it raises what one process was given. */
  predicate Settles(s: Shared, t: Shared, i: nat) {
    && Shaped(s) && i < |s.readers| && |t.readers| == |s.readers| && |t.highest| == |s.highest|
    && s.readers[i].Timed? && IsFresh(s, s.readers[i].look)
    && t == s.(readers := t.readers, highest := t.highest)
    && forall k :: 0 <= k < |s.readers| && k != i ==> t.readers[k] == s.readers[k]
  }

  predicate RaisedWithin(s: Shared, t: Shared, axis: Axis) {
    && |t.highest| == |s.highest| && |s.released| == |s.highest|
    && forall p :: 0 <= p < |s.highest| ==>
         && s.highest[p].On(axis) <= t.highest[p].On(axis)
         && (t.highest[p].On(axis) == s.highest[p].On(axis)
             || t.highest[p].On(axis) <= ReadsReleased(s.anchor, axis, s.released[p].On(axis), s.now.On(axis)))
  }

  lemma RaisedKeeps(s: Shared, t: Shared, axis: Axis, i: nat)
    requires Inv(s, axis) && Settles(s, t, i) && RaisedWithin(s, t, axis)
    requires Shaped(t) && ReaderFits(t, axis, i) && !ReadsBlind(t.readers[i])
    requires s.readers[i].axis != axis ==>
      forall p :: 0 <= p < |s.highest| ==> t.highest[p].On(axis) == s.highest[p].On(axis)
    ensures Inv(t, axis)
  {
    hide DurationAt, ReleasedAt, Stored, LineFits;
    forall p | 0 <= p < |t.released| ensures ProcessFits(t, axis, p) {
      assert ProcessFits(s, axis, p);
    }
    assert ReaderFits(s, axis, i);
    if s.readers[i].axis == axis {
      assert !s.writer.ChangingRate() || s.givenUp;
    }
    assert WriterFits(t, axis);
    hide Reads, ProcessFits, WriterFits;
    forall k | 0 <= k < |t.readers| ensures ReaderFits(t, axis, k) {
      if k != i {
        RaisedFits(s, t, axis, k);
      }
    }
  }

  /** A reading that settles, with what its process was given raised to it. */
  lemma SettleKeeps(s: Shared, t: Shared, axis: Axis, i: nat)
    requires Inv(s, axis) && i < |s.readers| && t == Step(s, LookAgain(i)) && |t.readers| == |s.readers|
    requires t.readers[i].Settled? && s.readers[i].Timed?
    requires s.readers[i].axis == axis ==>
      Loaded(axis, s.readers[i].seen)
      && Value(axis, s.readers[i].seen, s.released[s.homes[i]].On(axis), s.readers[i].clock)
         <= ReadsReleased(s.anchor, axis, s.released[s.homes[i]].On(axis), s.now.On(axis))
    ensures Inv(t, axis)
  {
    hide DurationAt, ReleasedAt, Stored, LineFits, Reads, WriterFits, ProcessFits;
    assert ReaderFits(s, axis, i);
    RaisedKeeps(s, t, axis, i);
  }

  lemma StepKeeps(s: Shared, axis: Axis, a: Action)
    requires Inv(s, axis) && Respected(s, a)
    ensures Inv(Step(s, a), axis)
  {
    hide Step, Inv, Respected;
    match a
    case Tick(dq, dp) => TickKeeps(s, axis, dq, dp);
    case OpenRate(_) => OpenKeeps(s, axis, a);
    case ReadQuit => TimeKeeps(s, axis, a);
    case ReadQpc => TimeKeeps(s, axis, a);
    case OpenJump(_, _) => OpenKeeps(s, axis, a);
    case StoreNext => StoreKeeps(s, axis);
    case Close => OpenKeeps(s, axis, a);
    case Kill => TimeKeeps(s, axis, a);
    case LetGo(p, x, at) => LetGoKeeps(s, axis, p, x, at);
    case Begin(i, _) => LoadKeeps(s, axis, a, i);
    case TakeLook(i) => LoadKeeps(s, axis, a, i);
    case GiveUp(i) => LoadKeeps(s, axis, a, i);
    case Load(i, _) => LoadKeeps(s, axis, a, i);
    case TakeClock(i) => ClockKeeps(s, axis, i);
    case LookAgain(i) => LookAgainKeeps(s, axis, i);
    case Answer(i) => AnswerKeeps(s, axis, i);
  }

  lemma {:induction false} RunKeeps(s: Shared, axis: Axis, actions: seq<Action>)
    requires Inv(s, axis) && RespectedRun(s, actions)
    ensures Inv(Run(s, actions), axis)
    decreases |actions|
  {
    hide Step, Inv, Respected;
    if actions != [] {
      StepKeeps(s, axis, actions[0]);
      RunKeeps(Step(s, actions[0]), axis, actions[1..]);
    }
  }

  // --- What a process sees ---

  /** A session whose core has just written its first anchor, and nobody has read it yet. */
  predicate JustOpened(s: Shared) {
    && Shaped(s) && Starts(s.anchor) && LineFits(s.anchor, Quit, s.now.quit) && LineFits(s.anchor, Qpc, s.now.qpc)
    && s.seqno % 2 == 0 && s.writer.Idle? && !s.givenUp && s.alive
    && (forall p :: 0 <= p < |s.released| ==> s.released[p] == Clocks(0, 0))
    && (forall p :: 0 <= p < |s.highest| ==> s.highest[p] == Clocks(I64_MIN, I64_MIN))
    && forall i :: 0 <= i < |s.readers| ==> s.readers[i].Resting?
  }

  lemma JustOpenedFits(s: Shared, axis: Axis)
    requires JustOpened(s)
    ensures Inv(s, axis)
  {
    hide DurationAt, ReleasedAt;
    forall p | 0 <= p < |s.released| ensures ProcessFits(s, axis, p) {
      AReadingIsI64(s.anchor, axis, s.now.On(axis));
    }
  }

  lemma AReadingIsI64(a: Anchor, axis: Axis, clock: int)
    ensures IsI64(ReadsReleased(a, axis, 0, clock))
  {
  }

  /** A reading under way: of this axis, with these floors. */
  predicate UnderWay(s: Shared, j: nat, axis: Axis, floors: seq<Clocks>) {
    j < |s.readers| && !s.readers[j].Resting? && s.readers[j].axis == axis && s.readers[j].floors == floors
  }

  lemma StaysUnderWay(s: Shared, j: nat, axis: Axis, floors: seq<Clocks>, a: Action)
    requires UnderWay(s, j, axis, floors) && !(a.Begin? && a.i == j)
    ensures UnderWay(Step(s, a), j, axis, floors) && Step(s, a).homes == s.homes
  {
    hide Value, Stored;
  }

  lemma {:induction false} StaysUnderWayOver(s: Shared, j: nat, axis: Axis, floors: seq<Clocks>, actions: seq<Action>)
    requires UnderWay(s, j, axis, floors)
    requires forall k :: 0 <= k < |actions| ==> !(actions[k].Begin? && actions[k].i == j)
    ensures UnderWay(Run(s, actions), j, axis, floors) && Run(s, actions).homes == s.homes
    decreases |actions|
  {
    hide Step, UnderWay;
    if actions != [] {
      StaysUnderWay(s, j, axis, floors, actions[0]);
      StaysUnderWayOver(Step(s, actions[0]), j, axis, floors, actions[1..]);
    }
  }

  /** No duration axis runs back. In every interleaving of rate changes, jumps, torn and retried reads, a core killed
      between any two stores, processes let go each in its own time and readers whose patience ran out - as long as
      no rate change goes on that was given up on and no release is published late - a reading that begins after another was answered answers at least
      as much: always within one process, and across two wherever the first bounds the second. */
  lemma NoDurationAxisRunsBack(s: Shared, before: seq<Action>, i: nat, j: nat, after: seq<Action>)
    requires JustOpened(s) && RespectedRun(s, before)
    requires var m := Run(s, before);
             && i < |m.readers| && m.readers[i].Answered?
             && j < |m.readers| && (m.readers[j].Resting? || m.readers[j].Answered?)
             && RespectedRun(Step(m, Begin(j, m.readers[i].axis)), after)
    requires forall k :: 0 <= k < |after| ==> !(after[k].Begin? && after[k].i == j)
    ensures var m := Run(s, before);
            var axis := m.readers[i].axis;
            var t := Run(Step(m, Begin(j, axis)), after);
            && Shaped(m) && Shaped(t) && t.homes == m.homes && |t.readers| == |m.readers|
            && |t.released| == |m.released|
            && (t.readers[j].Answered? && Bounds(t, m.homes[i], m.homes[j], axis, t.readers[j].clock) ==>
                  t.readers[j].value >= m.readers[i].value)
  {
    hide Value, Reads, ReadsReleased, ProcessFits, WriterFits, LineFits, Respected, Starts;
    var m := Run(s, before);
    var axis := m.readers[i].axis;
    var b := Step(m, Begin(j, axis));
    var t := Run(b, after);
    JustOpenedFits(s, axis);
    RunKeeps(s, axis, before);
    LoadKeeps(m, axis, Begin(j, axis), j);
    RunKeeps(b, axis, after);
    assert b.readers[j] == Begun(axis, m.highest) && b.homes == m.homes;
    StaysUnderWayOver(b, j, axis, m.highest, after);
    SameNumber(b, after);
    assert ReaderFits(m, axis, i);
    assert ReaderFits(t, axis, j);
  }

  lemma {:induction false} SameNumber(s: Shared, actions: seq<Action>)
    ensures |Run(s, actions).readers| == |s.readers| && |Run(s, actions).released| == |s.released|
    decreases |actions|
  {
    if actions != [] {
      OneStepSameNumber(s, actions[0]);
      hide Step;
      SameNumber(Step(s, actions[0]), actions[1..]);
    }
  }

  lemma OneStepSameNumber(s: Shared, a: Action)
    ensures |Step(s, a).readers| == |s.readers| && |Step(s, a).released| == |s.released|
  {
    hide Value, Stored;
  }

  /** A tick count answers no less than another whenever the QUIT readings behind them do. */
  lemma TicksFollowQuit(offset: int, earlier: int, later: int)
    requires earlier <= later
    ensures 0 <= TickFromQuit(offset, earlier) <= TickFromQuit(offset, later)
  {
    var (a, b) := (earlier / 10_000, later / 10_000);
    assert earlier == a * 10_000 + earlier % 10_000 && later == b * 10_000 + later % 10_000;
  }

  /** The tick count is the whole milliseconds of the QUIT reading, from the session's offset, held in its range. */
  lemma TicksAreMilliseconds(offset: int, quit: int, ms: int)
    requires 10_000 * ms <= quit < 10_000 * (ms + 1)
    ensures TickFromQuit(offset, quit)
         == if offset + ms < 0 then 0 else if offset + ms > I64_MAX then I64_MAX else offset + ms
  {
  }
}
