/** Readers that give up on a rate change and load its fields as they stand: each field from any of its stores, in any
    interleaving. What such a reading answers, exactly when that is less than was answered before the change, exactly
    when it is more than the finished change gives, and the runs that get there. */
module SessionTornReads {
  import opened SessionClock
  import opened SessionReaders
  import opened SessionRuns

  // --- Fields of a rate change, each loaded at its own time ---

  predicate BaseStored(axis: Axis, k: nat) { k >= if axis == Quit then 4 else 5 }

  predicate OriginStored(axis: Axis, k: nat) { k >= if axis == Quit then 6 else 7 }

  /** How many of the change's stores were done when each field was loaded. */
  datatype Loads = Loads(base: nat, origin: nat, rate: nat)

  predicate IsLoads(l: Loads) { l.base <= 8 && l.origin <= 8 && l.rate <= 8 }

  /** The clocks the change was made at. */
  function MadeAt(w: Writer): Clocks
    requires w.StoringRate?
  {
    Clocks(w.quit, w.qpc)
  }

  function FieldAt(w: Writer, f: Field, k: nat): int
    requires w.StoringRate? && k <= 8
  {
    Stored(w.was, w.Target(), FULL_ORDER, k).Get(f)
  }

  /** What the fields so loaded give. */
  function Mixed(w: Writer, axis: Axis, l: Loads, clock: int): int
    requires w.StoringRate? && IsLoads(l)
  {
    DurationAt(FieldAt(w, BaseField(axis), l.base), FieldAt(w, OriginField(axis), l.origin),
               FieldAt(w, Multiplier, l.rate), clock)
  }

  /** The rate a duration axis runs at, before and after the change and as loaded. */
  function OldRate(w: Writer): int
    requires w.StoringRate?
  {
    AtLeast(1, w.was.multiplier)
  }

  function NewRate(w: Writer): int
    requires w.StoringRate?
  {
    AtLeast(1, w.rate)
  }

  function RateLoaded(w: Writer, l: Loads): int
    requires w.StoringRate?
  {
    if l.rate >= 8 then NewRate(w) else OldRate(w)
  }

  /** The time on the old origin when the change was made. */
  function TimeBefore(w: Writer, axis: Axis): int
    requires w.StoringRate?
  {
    MadeAt(w).On(axis) - w.was.Get(OriginField(axis))
  }

  /** The line from the fields so loaded, read at a clock past the change: base, time on the origin loaded, rate. */
  lemma MixedIs(w: Writer, axis: Axis, l: Loads, clock: int)
    requires w.StoringRate? && IsLoads(l)
    requires LineFits(w.was, axis, MadeAt(w).On(axis)) && MadeAt(w).On(axis) <= clock
    ensures var (n, b) := (MadeAt(w).On(axis), Reads(w.was, axis, MadeAt(w).On(axis)));
      var time := clock - n + if OriginStored(axis, l.origin) then 0 else TimeBefore(w, axis);
      && b == Capped(w.was.Get(BaseField(axis)) + TimeBefore(w, axis) * OldRate(w)) && 0 <= b <= I64_MAX
      && TimeBefore(w, axis) * OldRate(w) >= 0 && time * RateLoaded(w, l) >= 0
      && Mixed(w, axis, l, clock)
         == Capped((if BaseStored(axis, l.base) then b else w.was.Get(BaseField(axis))) + time * RateLoaded(w, l))
  {
    var (n, base, origin) := (MadeAt(w).On(axis), w.was.Get(BaseField(axis)), w.was.Get(OriginField(axis)));
    LineIs(base, origin, w.was.multiplier, n);
    var b := Reads(w.was, axis, n);
    FieldsAre(w, axis, l);
    hide DurationAt, FieldAt, LineFits;
    var rate := if l.rate >= 8 then w.rate else w.was.multiplier;
    LineIs(if BaseStored(axis, l.base) then b else base, if OriginStored(axis, l.origin) then n else origin, rate, clock);
  }

  lemma FieldsAre(w: Writer, axis: Axis, l: Loads)
    requires w.StoringRate? && IsLoads(l)
    ensures FieldAt(w, BaseField(axis), l.base)
         == if BaseStored(axis, l.base) then Reads(w.was, axis, MadeAt(w).On(axis)) else w.was.Get(BaseField(axis))
    ensures FieldAt(w, OriginField(axis), l.origin)
         == if OriginStored(axis, l.origin) then MadeAt(w).On(axis) else w.was.Get(OriginField(axis))
    ensures FieldAt(w, Multiplier, l.rate) == if l.rate >= 8 then w.rate else w.was.multiplier
  {
    hide WallAt, DurationAt;
    StoredRebase(w.was, w.rate, w.quit, w.qpc, l.base);
    StoredRebase(w.was, w.rate, w.quit, w.qpc, l.origin);
    StoredRebase(w.was, w.rate, w.quit, w.qpc, l.rate);
  }

  /** What the finished change gives. */
  lemma FinishedIs(w: Writer, axis: Axis, clock: int)
    requires w.StoringRate? && LineFits(w.was, axis, MadeAt(w).On(axis)) && MadeAt(w).On(axis) <= clock
    ensures Reads(w.Target(), axis, clock)
         == Capped(Reads(w.was, axis, MadeAt(w).On(axis)) + (clock - MadeAt(w).On(axis)) * NewRate(w))
    ensures (clock - MadeAt(w).On(axis)) * NewRate(w) >= 0
  {
    FullIsTarget(w.was, w.rate, MadeAt(w));
    MixedIs(w, axis, Loads(8, 8, 8), clock);
    hide DurationAt, Rebased, Stored;
  }

  /** Less than was answered at the change's own clock: the base is the old one, and the time counted has not yet, at
      the rate loaded, come to what the axis had gone by then. */
  predicate FallsBack(w: Writer, axis: Axis, l: Loads, clock: int)
    requires w.StoringRate?
  {
    var time := clock - MadeAt(w).On(axis) + if OriginStored(axis, l.origin) then 0 else TimeBefore(w, axis);
    && !BaseStored(axis, l.base) && time * RateLoaded(w, l) < TimeBefore(w, axis) * OldRate(w)
    && w.was.Get(BaseField(axis)) + time * RateLoaded(w, l) < I64_MAX
  }

  /** More than the finished change gives, which is not at the top yet: what is gained by a rate loaded before a
      slowdown and by time counted again on the old origin outweighs what is lost with a base not yet loaded. */
  predicate RunsAhead(w: Writer, axis: Axis, l: Loads, clock: int)
    requires w.StoringRate?
  {
    var (since, time) := (clock - MadeAt(w).On(axis), TimeBefore(w, axis));
    && Reads(w.was, axis, MadeAt(w).On(axis)) + since * NewRate(w) < I64_MAX
    && since * (RateLoaded(w, l) - NewRate(w)) + (if OriginStored(axis, l.origin) then 0 else time * RateLoaded(w, l))
       > if BaseStored(axis, l.base) then 0 else time * OldRate(w)
  }

  lemma FallsBackIff(w: Writer, axis: Axis, l: Loads, clock: int)
    requires w.StoringRate? && IsLoads(l)
    requires LineFits(w.was, axis, MadeAt(w).On(axis)) && MadeAt(w).On(axis) <= clock
    ensures Mixed(w, axis, l, clock) < Reads(w.was, axis, MadeAt(w).On(axis)) <==> FallsBack(w, axis, l, clock)
  {
    MixedIs(w, axis, l, clock);
    hide Mixed, Reads, LineFits, BaseStored, OriginStored, TimeBefore, RateLoaded, OldRate;
  }

  lemma RunsAheadIff(w: Writer, axis: Axis, l: Loads, clock: int)
    requires w.StoringRate? && IsLoads(l)
    requires LineFits(w.was, axis, MadeAt(w).On(axis)) && MadeAt(w).On(axis) <= clock
    ensures Mixed(w, axis, l, clock) > Reads(w.Target(), axis, clock) <==> RunsAhead(w, axis, l, clock)
  {
    hide Mixed, Reads, LineFits, BaseStored, OriginStored, TimeBefore, RateLoaded, OldRate, NewRate, Capped, MadeAt;
    MixedIs(w, axis, l, clock);
    FinishedIs(w, axis, clock);
    var (b, time) := (Reads(w.was, axis, MadeAt(w).On(axis)), TimeBefore(w, axis));
    var gone := time * OldRate(w);
    var again := if OriginStored(axis, l.origin) then 0 else time;
    assert again * RateLoaded(w, l) == if OriginStored(axis, l.origin) then 0 else time * RateLoaded(w, l);
    Weighed(b, w.was.Get(BaseField(axis)), gone, clock - MadeAt(w).On(axis), again, RateLoaded(w, l), NewRate(w),
            BaseStored(axis, l.base));
  }

  /** One line against another, from the same base or from what it was before it. */
  lemma Weighed(b: int, base: int, gone: int, since: int, again: int, rate: int, to: int, stored: bool)
    requires b == Capped(base + gone) && gone >= 0 && (since + again) * rate >= 0 && since * to >= 0
    ensures Capped((if stored then b else base) + (since + again) * rate) > Capped(b + since * to)
            <==> b + since * to < I64_MAX && since * (rate - to) + again * rate > if stored then 0 else gone
  {
    assert since * (rate - to) == since * rate - since * to;
    assert (since + again) * rate == since * rate + again * rate;
  }

  // --- Whether there is a clock for it ---

  /** A base from before the change with time on its origin, and either the new origin beside it, or the new rate of a
      slowdown. */
  predicate CanFallBack(w: Writer, axis: Axis, l: Loads)
    requires w.StoringRate?
  {
    var (time, base) := (TimeBefore(w, axis), w.was.Get(BaseField(axis)));
    && !BaseStored(axis, l.base) && time > 0
    && (OriginStored(axis, l.origin) || (l.rate >= 8 && NewRate(w) < OldRate(w)))
    && base + (if OriginStored(axis, l.origin) then 0 else time * NewRate(w)) < I64_MAX
  }

  lemma AMixFallsBackIff(w: Writer, axis: Axis, l: Loads)
    requires w.StoringRate? && IsLoads(l) && LineFits(w.was, axis, MadeAt(w).On(axis))
    ensures (exists c :: MadeAt(w).On(axis) <= c && Mixed(w, axis, l, c) < Reads(w.was, axis, MadeAt(w).On(axis)))
            <==> CanFallBack(w, axis, l)
  {
    hide Mixed, Reads;
    var n := MadeAt(w).On(axis);
    FallsBackIff(w, axis, l, n);
    FallsBackAtOnce(w, axis, l);
    if c :| n <= c && Mixed(w, axis, l, c) < Reads(w.was, axis, n) {
      FallsBackIff(w, axis, l, c);
      FallsBackSooner(w, axis, l, c);
    }
  }

  lemma FallsBackAtOnce(w: Writer, axis: Axis, l: Loads)
    requires w.StoringRate? && LineFits(w.was, axis, MadeAt(w).On(axis))
    ensures FallsBack(w, axis, l, MadeAt(w).On(axis)) <==> CanFallBack(w, axis, l)
  {
    hide Reads;
    var time := TimeBefore(w, axis);
    Slopes(time, OldRate(w), RateLoaded(w, l));
    Slopes(time, OldRate(w), 0);
  }

  lemma FallsBackSooner(w: Writer, axis: Axis, l: Loads, clock: int)
    requires w.StoringRate? && MadeAt(w).On(axis) <= clock && FallsBack(w, axis, l, clock)
    requires LineFits(w.was, axis, MadeAt(w).On(axis))
    ensures FallsBack(w, axis, l, MadeAt(w).On(axis))
  {
    hide Reads;
    var before := if OriginStored(axis, l.origin) then 0 else TimeBefore(w, axis);
    MulMonotone(before, clock - MadeAt(w).On(axis) + before, RateLoaded(w, l));
  }

  lemma Slopes(d: int, m0: int, m1: int)
    requires d >= 0
    ensures d * m0 > d * m1 <==> d > 0 && m0 > m1
  {
    assert d * m0 - d * m1 == d * (m0 - m1);
    if d > 0 && m0 <= m1 {
      assert d * (m0 - m1) <= 0;
    }
    if d > 0 && m0 > m1 {
      assert d * (m0 - m1) > 0;
    }
  }

  /** How long after the change a mix first runs ahead, where it ever does. A base and an origin of one side with the
      old rate: at once after a slowdown. Time counted twice: at the change itself. The old base and origin with the new
      rate: at the change itself, after a speed-up. The old base with the new origin: when the old rate has made up for
      the time lost. */
  function AheadAfter(w: Writer, axis: Axis, l: Loads): nat
    requires w.StoringRate? && LineFits(w.was, axis, MadeAt(w).On(axis))
  {
    var time := TimeBefore(w, axis);
    if OriginStored(axis, l.origin) && !BaseStored(axis, l.base) then
      (if l.rate < 8 && OldRate(w) > NewRate(w) then time * OldRate(w) / (OldRate(w) - NewRate(w)) + 1 else 0)
    else if OriginStored(axis, l.origin) || (!BaseStored(axis, l.base) && l.rate < 8) then 1
    else if time > 0 then 0 else 1
  }

  predicate CanRunAhead(w: Writer, axis: Axis, l: Loads)
    requires w.StoringRate? && LineFits(w.was, axis, MadeAt(w).On(axis))
  {
    var slows := l.rate < 8 && OldRate(w) > NewRate(w);
    && Reads(w.was, axis, MadeAt(w).On(axis)) + AheadAfter(w, axis, l) * NewRate(w) < I64_MAX
    && if OriginStored(axis, l.origin) then slows
       else if BaseStored(axis, l.base) then TimeBefore(w, axis) > 0 || slows
       else slows || (l.rate >= 8 && TimeBefore(w, axis) > 0 && NewRate(w) > OldRate(w))
  }

  lemma AHalfWrittenRateChangeMisleadsIff(w: Writer, axis: Axis, l: Loads)
    requires w.StoringRate? && IsLoads(l) && LineFits(w.was, axis, MadeAt(w).On(axis))
    ensures (exists c :: MadeAt(w).On(axis) <= c && Mixed(w, axis, l, c) > Reads(w.Target(), axis, c))
            <==> CanRunAhead(w, axis, l)
  {
    hide Mixed, Reads, RunsAhead, CanRunAhead, AheadAfter, LineFits;
    var n := MadeAt(w).On(axis);
    if c :| n <= c && Mixed(w, axis, l, c) > Reads(w.Target(), axis, c) {
      RunsAheadIff(w, axis, l, c);
      AheadSomewhere(w, axis, l, c);
    }
    if CanRunAhead(w, axis, l) {
      AheadThere(w, axis, l);
      RunsAheadIff(w, axis, l, n + AheadAfter(w, axis, l));
    }
  }

  /** It runs ahead where it is said to. */
  lemma AheadThere(w: Writer, axis: Axis, l: Loads)
    requires w.StoringRate? && LineFits(w.was, axis, MadeAt(w).On(axis)) && CanRunAhead(w, axis, l)
    ensures RunsAhead(w, axis, l, MadeAt(w).On(axis) + AheadAfter(w, axis, l))
  {
    hide Reads;
    var (time, before, rate, to) := (TimeBefore(w, axis), OldRate(w), RateLoaded(w, l), NewRate(w));
    Slopes(time, rate, 0);
    if OriginStored(axis, l.origin) && !BaseStored(axis, l.base) {
      MadeUp(time * before, before - to);
    } else if !OriginStored(axis, l.origin) && !BaseStored(axis, l.base) {
      Slopes(time, rate, before);
    }
  }

  /** The first multiple past a product. */
  lemma MadeUp(lost: int, gain: int)
    requires lost >= 0 && gain > 0
    ensures lost / gain >= 0 && (lost / gain + 1) * gain > lost && (lost / gain) * gain <= lost
  {
  }

  /** And nowhere if not there, nor any sooner. */
  lemma AheadSomewhere(w: Writer, axis: Axis, l: Loads, clock: int)
    requires w.StoringRate? && LineFits(w.was, axis, MadeAt(w).On(axis)) && MadeAt(w).On(axis) <= clock
    requires RunsAhead(w, axis, l, clock)
    ensures CanRunAhead(w, axis, l) && MadeAt(w).On(axis) + AheadAfter(w, axis, l) <= clock
  {
    AheadNoSooner(w, axis, l, clock);
    hide Reads, RunsAhead;
    MulMonotone(AheadAfter(w, axis, l), clock - MadeAt(w).On(axis), NewRate(w));
  }

  lemma AheadNoSooner(w: Writer, axis: Axis, l: Loads, clock: int)
    requires w.StoringRate? && LineFits(w.was, axis, MadeAt(w).On(axis)) && MadeAt(w).On(axis) <= clock
    requires RunsAhead(w, axis, l, clock)
    ensures MadeAt(w).On(axis) + AheadAfter(w, axis, l) <= clock
    ensures var slows := l.rate < 8 && OldRate(w) > NewRate(w);
      if OriginStored(axis, l.origin) then slows
      else if BaseStored(axis, l.base) then TimeBefore(w, axis) > 0 || slows
      else slows || (l.rate >= 8 && TimeBefore(w, axis) > 0 && NewRate(w) > OldRate(w))
    ensures Reads(w.was, axis, MadeAt(w).On(axis)) + (clock - MadeAt(w).On(axis)) * NewRate(w) < I64_MAX
  {
    hide Reads;
    var (since, time) := (clock - MadeAt(w).On(axis), TimeBefore(w, axis));
    var (before, rate, to) := (OldRate(w), RateLoaded(w, l), NewRate(w));
    Slopes(since, rate, to);
    assert since * (rate - to) == since * rate - since * to;
    Slopes(time, rate, before);
    MulMonotone(0, time, before);
    if OriginStored(axis, l.origin) && !BaseStored(axis, l.base) {
      MadeUp(time * before, before - to);
      NoSooner(time * before, before - to, since);
    }
  }

  lemma NoSooner(lost: int, gain: int, since: int)
    requires lost >= 0 && gain > 0 && since >= 0 && since * gain > lost
    ensures lost / gain + 1 <= since
  {
    if since <= lost / gain {
      MulMonotone(since, lost / gain, gain);
      MadeUp(lost, gain);
    }
  }
}
