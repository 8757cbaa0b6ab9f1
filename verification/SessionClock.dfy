/** The session's clocks: the anchor block the core shares with every process it covers, and the
    projections a process reads its fake time from (crates/ctl/src/lib.rs). */
module SessionClock {

  const I64_MIN := -0x8000_0000_0000_0000
  const I64_MAX := 0x7fff_ffff_ffff_ffff
  const MAX_ZONE_BIAS_TICKS := 15 * 3600 * 10_000_000
  const FAKE_WALL_MAX := (I64_MAX - MAX_ZONE_BIAS_TICKS) - (I64_MAX - MAX_ZONE_BIAS_TICKS) % 10_000_000

  predicate IsI64(x: int) { I64_MIN <= x <= I64_MAX }

  /** What a saturating operation leaves of an exact result. */
  function Saturate(x: int): int {
    if x < I64_MIN then I64_MIN else if x > I64_MAX then I64_MAX else x
  }

  function AtLeast(floor: int, x: int): int { if x < floor then floor else x }

  // --- The projections ---

  /** The real time since an anchor, held at none for a clock read before it. */
  function Elapsed(origin: int, clock: int): int { AtLeast(0, Saturate(clock - origin)) }

  /** `dur_quit_at` and `dur_qpc_at`: the same line over two clocks. */
  function DurationAt(base: int, origin: int, rate: int, clock: int): int {
    Saturate(base + Saturate(Elapsed(origin, clock) * AtLeast(1, rate)))
  }

  function WallAt(anchorFake: int, anchorReal: int, clock: int, rate: int): int {
    var at := Saturate(anchorFake + Saturate(Elapsed(anchorReal, clock) * rate));
    if at < 0 then 0 else if at > FAKE_WALL_MAX then FAKE_WALL_MAX else at
  }

  function TickFromQuit(offset: int, quit: int): int { AtLeast(0, Saturate(offset + quit / 10_000)) }

  /** `released_line`: an axis let go at `releasedAt` (0 while the session holds it) runs on at the real rate. */
  function ReleasedAt(base: int, origin: int, rate: int, releasedAt: int, clock: int): int {
    if releasedAt == 0 || clock < releasedAt then DurationAt(base, origin, rate, clock)
    else Saturate(DurationAt(base, origin, rate, releasedAt) + Saturate(clock - releasedAt))
  }

  // --- The anchor block, and the order its fields are stored in ---

  datatype Field = AFake | AReal | DurTickOffset | DurQuitC0 | DurQpcC0 | DurQ0 | DurQpcQ0 | Multiplier

  datatype Anchor = Anchor(aFake: int, aReal: int, tickOffset: int, quitC0: int, qpcC0: int, q0: int, qpcQ0: int,
                           multiplier: int)
  {
    function Get(f: Field): int {
      match f
      case AFake => aFake
      case AReal => aReal
      case DurTickOffset => tickOffset
      case DurQuitC0 => quitC0
      case DurQpcC0 => qpcC0
      case DurQ0 => q0
      case DurQpcQ0 => qpcQ0
      case Multiplier => multiplier
    }

    function Set(f: Field, v: int): Anchor {
      match f
      case AFake => this.(aFake := v)
      case AReal => this.(aReal := v)
      case DurTickOffset => this.(tickOffset := v)
      case DurQuitC0 => this.(quitC0 := v)
      case DurQpcC0 => this.(qpcC0 := v)
      case DurQ0 => this.(q0 := v)
      case DurQpcQ0 => this.(qpcQ0 := v)
      case Multiplier => this.(multiplier := v)
    }
  }

  /** A store changes its own field and no other. */
  lemma AStoreIsOfOneField(a: Anchor, f: Field, v: int, g: Field)
    ensures a.Set(f, v).Get(g) == if f == g then v else a.Get(g)
  {
  }

  /** `full_anchor_stores`: each base before its origin, and the rate last. */
  const FULL_ORDER: seq<Field> :=
    [AFake, AReal, DurTickOffset, DurQuitC0, DurQpcC0, DurQ0, DurQpcQ0, Multiplier]

  /** `write_anchor`: the stores of a jump of the wall. */
  const WALL_ORDER: seq<Field> := [AFake, AReal, Multiplier]

  /** The block as it stands after the first `k` fields of `order` were stored from `to`. */
  function Stored(was: Anchor, to: Anchor, order: seq<Field>, k: nat): Anchor
    requires k <= |order|
  {
    if k == 0 then was else Stored(was, to, order, k - 1).Set(order[k - 1], to.Get(order[k - 1]))
  }

  /** The anchor a rate change ends with: every axis frozen where it stands and carried on at `rate`. */
  function Rebased(was: Anchor, rate: int, now: int, nowQpc: int): Anchor {
    Anchor(
      WallAt(was.aFake, was.aReal, now, was.multiplier),
      now,
      was.tickOffset,
      DurationAt(was.quitC0, was.q0, was.multiplier, now),
      DurationAt(was.qpcC0, was.qpcQ0, was.multiplier, nowQpc),
      now,
      nowQpc,
      rate)
  }

  /** The bases the duration axes start from are 64-bit, as every saturated result is. */
  predicate Starts(a: Anchor) { IsI64(a.quitC0) && IsI64(a.qpcC0) }

  function Jumped(was: Anchor, to: int, now: int): Anchor { was.(aFake := to, aReal := now) }

  // --- Which clock an axis runs on ---

  datatype Axis = Quit | Qpc

  datatype Clocks = Clocks(quit: int, qpc: int) {
    function On(axis: Axis): int { if axis == Quit then quit else qpc }
  }

  function BaseField(axis: Axis): Field { if axis == Quit then DurQuitC0 else DurQpcC0 }
  function OriginField(axis: Axis): Field { if axis == Quit then DurQ0 else DurQpcQ0 }

  /** What a duration axis reads from a block at a real clock. */
  function Reads(a: Anchor, axis: Axis, clock: int): int {
    DurationAt(a.Get(BaseField(axis)), a.Get(OriginField(axis)), a.multiplier, clock)
  }

  /** The same for a process let go at `releasedAt`. */
  function ReadsReleased(a: Anchor, axis: Axis, releasedAt: int, clock: int): int {
    ReleasedAt(a.Get(BaseField(axis)), a.Get(OriginField(axis)), a.multiplier, releasedAt, clock)
  }

  lemma MulMonotone(a: int, b: int, m: int)
    requires 0 <= a <= b && 0 <= m
    ensures 0 <= a * m <= b * m
  {
  }

  lemma DurationMonotone(base: int, origin: int, rate: int, earlier: int, later: int)
    requires earlier <= later && IsI64(base)
    ensures base <= DurationAt(base, origin, rate, earlier) <= DurationAt(base, origin, rate, later)
  {
    MulMonotone(Elapsed(origin, earlier), Elapsed(origin, later), AtLeast(1, rate));
  }

  lemma WallMonotone(fake: int, origin: int, rate: int, earlier: int, later: int)
    requires earlier <= later && 0 <= rate
    ensures WallAt(fake, origin, earlier, rate) <= WallAt(fake, origin, later, rate)
  {
    MulMonotone(Elapsed(origin, earlier), Elapsed(origin, later), rate);
  }

  lemma StoredRebase(was: Anchor, rate: int, now: int, nowQpc: int, k: nat)
    requires k <= 8
    ensures var to := Rebased(was, rate, now, nowQpc);
      Stored(was, to, FULL_ORDER, k) == Anchor(
        if k >= 1 then to.aFake else was.aFake,
        if k >= 2 then now else was.aReal,
        was.tickOffset,
        if k >= 4 then to.quitC0 else was.quitC0,
        if k >= 5 then to.qpcC0 else was.qpcC0,
        if k >= 6 then now else was.q0,
        if k >= 7 then nowQpc else was.qpcQ0,
        if k >= 8 then rate else was.multiplier)
  {
    if k > 0 {
      StoredRebase(was, rate, now, nowQpc, k - 1);
    }
  }

  /** A core killed after any number of the stores of a rate change leaves duration axes that read no
      earlier than they did when the change began, whenever they are read; the complete change is
      continuous with the old line. */
  lemma EveryPrefixRunsOn(was: Anchor, rate: int, now: Clocks, k: nat, axis: Axis, later: int)
    requires Starts(was) && k <= 8 && now.On(axis) <= later
    ensures Reads(Stored(was, Rebased(was, rate, now.quit, now.qpc), FULL_ORDER, k), axis, later)
         >= Reads(was, axis, now.On(axis))
    ensures Reads(Rebased(was, rate, now.quit, now.qpc), axis, now.On(axis)) == Reads(was, axis, now.On(axis))
  {
    StoredRebase(was, rate, now.quit, now.qpc, k);
    var to := Rebased(was, rate, now.quit, now.qpc);
    var p := Stored(was, to, FULL_ORDER, k);
    DurationMonotone(was.Get(BaseField(axis)), was.Get(OriginField(axis)), was.multiplier, now.On(axis), later);
    DurationMonotone(p.Get(BaseField(axis)), p.Get(OriginField(axis)), p.multiplier, now.On(axis), later);
  }

  /** The same for the wall clock, at any rate a session may run at. */
  lemma EveryPrefixKeepsTheWall(was: Anchor, rate: int, now: Clocks, k: nat, later: int)
    requires Starts(was) && k <= 8 && now.quit <= later && 0 <= rate && 0 <= was.multiplier
    ensures var p := Stored(was, Rebased(was, rate, now.quit, now.qpc), FULL_ORDER, k);
      WallAt(p.aFake, p.aReal, later, p.multiplier) >= WallAt(was.aFake, was.aReal, now.quit, was.multiplier)
  {
    StoredRebase(was, rate, now.quit, now.qpc, k);
    var p := Stored(was, Rebased(was, rate, now.quit, now.qpc), FULL_ORDER, k);
    WallMonotone(was.aFake, was.aReal, was.multiplier, now.quit, later);
    MulMonotone(0, Elapsed(p.aReal, later), p.multiplier);
  }

  // --- The block in shared memory, and its one writer ---

  class ControlBlock {
    var anchor: Anchor
    var seqno: nat

    constructor (start: Anchor)
      ensures anchor == start && seqno == 0
    {
      anchor, seqno := start, 0;
    }

    method StoreField(f: Field, v: int)
      modifies `anchor
      ensures anchor == old(anchor).Set(f, v)
    {
      anchor := anchor.Set(f, v);
    }

    /** Stores the fields of `to` one at a time, with the sequence number odd all the while. */
    method WriteInOrder(to: Anchor, order: seq<Field>)
      requires seqno % 2 == 1
      modifies `anchor
      ensures anchor == Stored(old(anchor), to, order, |order|)
    {
      for k := 0 to |order|
        invariant anchor == Stored(old(anchor), to, order, k)
      {
        StoreField(order[k], to.Get(order[k]));
      }
    }

    /** `rebase`: the real clocks are the ones read while the write stands open. */
    method Rebase(rate: int, now: int, nowQpc: int) returns (oldRate: int)
      requires seqno % 2 == 0
      modifies this
      ensures anchor == Rebased(old(anchor), rate, now, nowQpc)
      ensures oldRate == old(anchor.multiplier) && seqno == old(seqno) + 2
    {
      seqno := seqno + 1;
      oldRate := anchor.multiplier;
      StoredRebase(anchor, rate, now, nowQpc, 8);
      WriteInOrder(Rebased(anchor, rate, now, nowQpc), FULL_ORDER);
      seqno := seqno + 1;
    }

    /** `write_anchor`, as a jump calls it: the wall moves and the duration axes stay. */
    method Jump(to: int, now: int)
      requires seqno % 2 == 0
      modifies this
      ensures anchor == Jumped(old(anchor), to, now) && seqno == old(seqno) + 2
    {
      seqno := seqno + 1;
      StoredJump(anchor, to, now, 3);
      WriteInOrder(Jumped(anchor, to, now), WALL_ORDER);
      seqno := seqno + 1;
    }
  }

  lemma StoredJump(was: Anchor, to: int, now: int, k: nat)
    requires k <= 3
    ensures Stored(was, Jumped(was, to, now), WALL_ORDER, k)
         == was.(aFake := if k >= 1 then to else was.aFake, aReal := if k >= 2 then now else was.aReal)
  {
    if k > 0 {
      StoredJump(was, to, now, k - 1);
    }
  }
}
