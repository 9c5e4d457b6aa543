/** Placement arithmetic of the hierarchical timer wheel: eight levels of
    sixty-four slots over absolute ticks.

    Words are unbounded naturals here. A shift by `6 * level` is a division by
    `Width(level)`, a mask by `2^k - 1` is a remainder, and the one place where
    64-bit width is observable, the saturating addition of a slot's distance to
    the cursor, is written out. */
module TimerPlacement {
  import opened MachineWords

  const LEVELS: nat := 8
  const SLOTS: nat := 64
  const SPAN_TICKS: nat := 0x1_0000_0000_0000
  const MAX_DELAY_TICKS: nat := SPAN_TICKS - 1
  const MAX_TICK: nat := U64_MAX - 1

  function Pow2(k: nat): (p: nat)
    ensures p > 0
  {
    if k == 0 then 1 else 2 * Pow2(k - 1)
  }

  /** Ticks covered by one slot of `level`. */
  function Width(level: nat): (w: nat)
    ensures w > 0
  {
    Pow2(6 * level)
  }

  /** Position of the most significant bit in which `a` and `b` differ, which is
      what `63 - (a ^ b).leading_zeros()` computes. */
  function HighestDifferingBit(a: nat, b: nat): nat
    requires a != b
    decreases a + b
  {
    if a / 2 == b / 2 then 0 else 1 + HighestDifferingBit(a / 2, b / 2)
  }

  function Min(a: int, b: int): int { if a < b then a else b }

  function Max(a: int, b: int): int { if a < b then b else a }

  predicate DeadlineFits(cursor: nat, deadline: nat) {
    deadline <= cursor || deadline - cursor <= MAX_DELAY_TICKS
  }

  /** The level whose slots separate the two ticks. */
  function PlaceLevel(cursor: nat, deadline: nat): nat {
    if deadline <= cursor then 0
    else Min(HighestDifferingBit(cursor, deadline) / 6, LEVELS - 1)
  }

  function PlaceSlot(cursor: nat, deadline: nat): nat {
    if deadline <= cursor then cursor % SLOTS
    else (deadline / Width(PlaceLevel(cursor, deadline))) % SLOTS
  }

  /** The slot of `level` the cursor is in. */
  function Here(cursor: nat, level: nat): (here: nat)
    ensures here < SLOTS
  {
    (cursor / Width(level)) % SLOTS
  }

  /** Absolute start of the next occurrence of `(level, slot)`. */
  function SlotWakeup(cursor: nat, level: nat, slot: nat): (w: nat)
    ensures w <= U64_MAX
  {
    var width := Width(level);
    var rotation := 64 * width;
    var within := cursor % rotation;
    var start := slot * width;
    Min(cursor + Distance(within, start, rotation), U64_MAX)
  }

  /** Forward distance from one offset of a rotation to another. */
  function Distance(within: nat, start: nat, rotation: nat): nat
    requires within < rotation
  {
    if start >= within then start - within else rotation - within + start
  }

  /** Slot widths from the start of the cursor's slot to the next occurrence of
      `slot`: a full rotation when the cursor is already inside it. */
  function StepsAhead(cursor: nat, level: nat, slot: nat): nat {
    var here := Here(cursor, level);
    if slot > here then slot - here
    else if slot < here then slot + SLOTS - here
    else if cursor % Width(level) == 0 then 0 else SLOTS
  }

  // ---- Specification -------------------------------------------------------

  /** The tick at which a filed timer next needs attention: now if it is
      overdue, otherwise the start of the slot-width interval holding it. */
  function Due(cursor: nat, deadline: nat, level: nat): nat {
    if deadline <= cursor then cursor else deadline / Width(level) * Width(level)
  }

  /** A timer sits where the wheel will find it in time. An overdue timer is in
      the cursor's own level-0 slot. Any other is strictly ahead of the cursor at
      its level, and below the top level it is in the cursor's own rotation. */
  predicate Placed(cursor: nat, deadline: nat, level: nat, slot: nat) {
    if deadline <= cursor then level == 0 && slot == cursor % SLOTS
    else
      && level < LEVELS
      && cursor / Width(level) < deadline / Width(level)
      && slot == (deadline / Width(level)) % SLOTS
      && (level + 1 < LEVELS ==> cursor / Width(level + 1) == deadline / Width(level + 1))
      && deadline - cursor < SPAN_TICKS
  }

  /** The cursor has just reached the start of a coarse timer's slot, which the
      cascade must now break up. */
  predicate Arrived(cursor: nat, deadline: nat, level: nat, slot: nat) {
    && 0 < level < LEVELS
    && cursor <= deadline < cursor + SPAN_TICKS
    && cursor % Width(level) == 0
    && cursor / Width(level) == deadline / Width(level)
    && slot == Here(cursor, level)
  }

  // ---- Division ------------------------------------------------------------

  lemma Distribute(a: int, b: int, w: int)
    ensures (a + b) * w == a * w + b * w
  {
  }

  lemma MulMonotone(w: nat, a: nat, b: nat)
    requires a <= b
    ensures 0 <= a * w <= b * w
  {
  }

  lemma MulCancel(w: nat, a: nat, b: nat)
    requires a * w < b * w
    ensures a < b
  {
  }

  lemma QuotientRemainder(x: nat, w: nat)
    requires w > 0
    ensures x == x / w * w + x % w && 0 <= x % w < w
  {
  }

  lemma DivUnique(x: nat, q: nat, r: nat, w: nat)
    requires x == q * w + r && r < w
    ensures x / w == q && x % w == r
  {
    var q' := x / w;
    QuotientRemainder(x, w);
    Distribute(q, 1, w);
    Distribute(q', 1, w);
    MulCancel(w, q', q + 1);
    MulCancel(w, q, q' + 1);
  }

  lemma DivMonotone(x: nat, y: nat, w: nat)
    requires w > 0 && x <= y
    ensures x / w <= y / w
  {
    var p, q := x / w, y / w;
    QuotientRemainder(x, w);
    QuotientRemainder(y, w);
    Distribute(q, 1, w);
    MulCancel(w, p, q + 1);
  }

  lemma Regroup(q: nat, r: nat, k: nat, t: nat, m: nat, w: nat)
    requires q == k * m + t && t < m && r < w
    ensures q * w + r == k * (m * w) + (t * w + r)
    ensures 0 <= t * w + r < m * w
  {
    Distribute(k * m, t, w);
    assert (k * m) * w == k * (m * w);
    MulMonotone(w, t + 1, m);
    Distribute(t, 1, w);
  }

  lemma DivDiv(x: nat, m: nat, w: nat)
    requires w > 0 && m > 0
    ensures m * w > 0
    ensures x / (m * w) == (x / w) / m
    ensures x % (m * w) == (x / w) % m * w + x % w
  {
    var q, r := x / w, x % w;
    var k, t := q / m, q % m;
    QuotientRemainder(x, w);
    QuotientRemainder(q, m);
    Regroup(q, r, k, t, m, w);
    DivUnique(x, k, t * w + r, m * w);
  }

  lemma WidthStep(level: nat)
    ensures Width(level + 1) == 64 * Width(level)
  {
    var k := 6 * level;
    assert Pow2(k + 6) == 2 * Pow2(k + 5) == 4 * Pow2(k + 4) == 8 * Pow2(k + 3);
    assert Pow2(k + 3) == 2 * Pow2(k + 2) == 4 * Pow2(k + 1) == 8 * Pow2(k);
  }

  lemma TopWidth()
    ensures Width(0) == 1
    ensures 64 * Width(LEVELS - 1) == SPAN_TICKS
  {
    WidthStep(0); WidthStep(1); WidthStep(2); WidthStep(3);
    WidthStep(4); WidthStep(5); WidthStep(6);
  }

  lemma {:induction false} WidthBounded(level: nat)
    requires level < LEVELS
    ensures 64 * Width(level) <= SPAN_TICKS
    decreases LEVELS - level
  {
    TopWidth();
    if level + 1 < LEVELS {
      WidthStep(level);
      WidthBounded(level + 1);
    }
  }

  // ---- Highest differing bit ------------------------------------------------

  lemma ShiftStep(x: nat, k: nat)
    requires k > 0
    ensures x / Pow2(k) == (x / 2) / Pow2(k - 1)
  {
    var m := Pow2(k - 1);
    assert Pow2(k) == m * 2;
    hide Pow2;
    DivDiv(x, m, 2);
  }

  /** Two words agree above bit `k` exactly when their highest differing bit is
      below it. */
  lemma {:induction false} DifferingBitWindow(a: nat, b: nat, k: nat)
    requires a != b
    ensures HighestDifferingBit(a, b) < k <==> a / Pow2(k) == b / Pow2(k)
  {
    if k == 0 {
      assert Pow2(k) == 1;
    } else {
      hide Pow2;
      ShiftStep(a, k);
      ShiftStep(b, k);
      var x, y := a / 2, b / 2;
      if x == y {
        assert HighestDifferingBit(a, b) == 0;
      } else {
        assert HighestDifferingBit(a, b) == 1 + HighestDifferingBit(x, y);
        hide HighestDifferingBit;
        DifferingBitWindow(x, y, k - 1);
      }
    }
  }

  // ---- Placement ------------------------------------------------------------

  /** Filing always puts a timer where the wheel will find it in time. */
  lemma PlacementIsPlaced(cursor: nat, deadline: nat)
    requires DeadlineFits(cursor, deadline)
    ensures Placed(cursor, deadline, PlaceLevel(cursor, deadline), PlaceSlot(cursor, deadline))
    ensures PlaceLevel(cursor, deadline) < LEVELS && PlaceSlot(cursor, deadline) < SLOTS
  {
    if cursor < deadline {
      var bit := HighestDifferingBit(cursor, deadline);
      var level := PlaceLevel(cursor, deadline);
      DifferingBitWindow(cursor, deadline, 6 * level);
      DivMonotone(cursor, deadline, Width(level));
      if level + 1 < LEVELS {
        DifferingBitWindow(cursor, deadline, 6 * (level + 1));
      }
    }
  }

  /** Breaking up a slot the cursor has reached always moves its timers down. */
  lemma CascadeDescends(cursor: nat, deadline: nat, level: nat, slot: nat)
    requires Arrived(cursor, deadline, level, slot)
    ensures PlaceLevel(cursor, deadline) < level
    ensures DeadlineFits(cursor, deadline)
  {
    if cursor < deadline {
      DifferingBitWindow(cursor, deadline, 6 * level);
    }
  }

  lemma DistanceToSlot(q: nat, r: nat, w: nat, here: nat, slot: nat, steps: nat,
                       within: int, start: int, rotation: int)
    requires r < w && here < 64 && slot < 64
    requires slot > here ==> steps == slot - here
    requires slot < here ==> steps == slot + 64 - here
    requires slot == here ==> steps == if r == 0 then 0 else 64
    requires within == here * w + r && start == slot * w && rotation == 64 * w
    ensures 0 <= within < rotation && 0 <= start
    ensures q * w + r + Distance(within, start, rotation) == (q + steps) * w
  {
    Distribute(q, steps, w);
    Distribute(here, steps, w);
    Distribute(here, 1, w);
    MulMonotone(w, here + 1, 64);
    MulMonotone(w, 0, slot);
    MulMonotone(w, 0, here);
    if slot > here {
      MulMonotone(w, 1, steps);
    } else if slot < here {
      Distribute(slot, 64, w);
      Distribute(slot, here - slot, w);
      MulMonotone(w, 1, here - slot);
    }
  }

  lemma WithinRotation(cursor: nat, level: nat)
    ensures cursor % (64 * Width(level)) == Here(cursor, level) * Width(level) + cursor % Width(level)
  {
    hide Width;
    DivDiv(cursor, 64, Width(level));
  }

  /** A closed form of `SlotWakeup`: the next slot boundary congruent to `slot`,
      or the cursor itself when it stands on that boundary. */
  lemma WakeupClosedForm(cursor: nat, level: nat, slot: nat)
    requires slot < SLOTS
    ensures SlotWakeup(cursor, level, slot)
         == Min((cursor / Width(level) + StepsAhead(cursor, level, slot)) * Width(level), U64_MAX)
  {
    hide Width, Distance;
    var w := Width(level);
    var q, r := cursor / w, cursor % w;
    WithinRotation(cursor, level);
    DistanceToSlot(q, r, w, Here(cursor, level), slot, StepsAhead(cursor, level, slot),
                   cursor % (64 * w), slot * w, 64 * w);
    QuotientRemainder(cursor, w);
  }

  /** Reaching a later slot of the same level crosses its start. */
  lemma SlotStartAhead(cursor: nat, deadline: nat, w: nat)
    requires w > 0 && cursor / w < deadline / w
    ensures cursor < deadline / w * w <= deadline
  {
    var c, d := cursor / w, deadline / w;
    QuotientRemainder(cursor, w);
    QuotientRemainder(deadline, w);
    Distribute(c, 1, w);
    MulMonotone(w, c + 1, d);
  }

  lemma TopLevelReach(cursor: nat, deadline: nat, w: nat)
    requires w > 0 && cursor / w < deadline / w && deadline < cursor + 64 * w
    ensures deadline / w <= cursor / w + 64
    ensures cursor % w == 0 ==> deadline / w < cursor / w + 64
  {
    var c, d := cursor / w, deadline / w;
    QuotientRemainder(cursor, w);
    QuotientRemainder(deadline, w);
    Distribute(c, d - c, w);
    if d >= c + 64 {
      MulMonotone(w, 64, d - c);
      if d >= c + 65 { MulMonotone(w, 65, d - c); }
    }
  }

  /** How far ahead, in slots, a placed timer is. */
  lemma PlacedSteps(cursor: nat, deadline: nat, level: nat, slot: nat)
    requires Placed(cursor, deadline, level, slot) && cursor < deadline
    ensures deadline / Width(level) == cursor / Width(level) + StepsAhead(cursor, level, slot)
  {
    var w := Width(level);
    if level + 1 < LEVELS {
      WidthStep(level);
      DivDiv(cursor, 64, w);
      DivDiv(deadline, 64, w);
    } else {
      TopWidth();
      TopLevelReach(cursor, deadline, w);
    }
  }

  /** A slot's wakeup is exactly the due tick of every timer in it, and it is
      never later than the timer's own deadline. */
  lemma PlacedWakeup(cursor: nat, deadline: nat, level: nat, slot: nat)
    requires Placed(cursor, deadline, level, slot)
    requires cursor <= MAX_TICK && deadline <= MAX_TICK
    ensures SlotWakeup(cursor, level, slot) == Due(cursor, deadline, level)
    ensures cursor <= Due(cursor, deadline, level) <= Max(cursor, deadline)
    ensures cursor < deadline ==> cursor < Due(cursor, deadline, level)
    ensures slot < SLOTS && level < LEVELS
  {
    WakeupClosedForm(cursor, level, slot);
    if cursor < deadline {
      SlotStartAhead(cursor, deadline, Width(level));
      PlacedSteps(cursor, deadline, level, slot);
    } else {
      TopWidth();
    }
  }

  lemma StillBehind(cursor: nat, deadline: nat, w: nat)
    requires w > 0 && cursor < deadline / w * w
    ensures cursor / w < deadline / w
  {
  }

  /** Moving the cursor over an empty range leaves every timer placed, due at the
      same tick as before. */
  lemma SkipKeepsPlaced(cursor: nat, cursor': nat, deadline: nat, level: nat, slot: nat)
    requires Placed(cursor, deadline, level, slot)
    requires cursor <= cursor' < Due(cursor, deadline, level)
    ensures Placed(cursor', deadline, level, slot)
    ensures Due(cursor', deadline, level) == Due(cursor, deadline, level)
  {
    var w := Width(level);
    SlotStartAhead(cursor, deadline, w);
    StillBehind(cursor', deadline, w);
    if level + 1 < LEVELS {
      DivMonotone(cursor, cursor', Width(level + 1));
      DivMonotone(cursor', deadline, Width(level + 1));
    }
  }

  /** When the cursor lands on a timer's due tick, the timer is either in the
      level-0 slot about to fire or in a coarse slot about to be broken up. */
  lemma LandingArrives(cursor: nat, cursor': nat, deadline: nat, level: nat, slot: nat)
    requires Placed(cursor, deadline, level, slot)
    requires cursor <= cursor' == Due(cursor, deadline, level)
    ensures level == 0 ==> Placed(cursor', deadline, level, slot) && deadline <= cursor'
    ensures level != 0 ==> Arrived(cursor', deadline, level, slot)
    ensures deadline <= cursor' ==> Max(deadline, cursor) == cursor'
  {
    TopWidth();
    hide Width;
    if cursor < deadline {
      var w := Width(level);
      SlotStartAhead(cursor, deadline, w);
      if level != 0 { DivUnique(cursor', deadline / w, 0, w); }
    }
  }

  /** Below the top level, a timer sharing the cursor's slot has arrived: nothing
      that is still ahead can be there. */
  lemma OnlyTopLevelWraps(cursor: nat, deadline: nat, level: nat)
    requires 0 < level
    requires Placed(cursor, deadline, level, Here(cursor, level))
    ensures level == LEVELS - 1
  {
    if level + 1 < LEVELS {
      var w := Width(level);
      WidthStep(level);
      DivDiv(cursor, 64, w);
      DivDiv(deadline, 64, w);
    }
  }

  /** Circular distance from the cursor orders the wakeups of one level. */
  lemma CircularOrder(cursor: nat, level: nat, near: nat, far: nat)
    requires near < SLOTS && far < SLOTS
    requires StepsAhead(cursor, level, near) <= StepsAhead(cursor, level, far)
    ensures SlotWakeup(cursor, level, near) <= SlotWakeup(cursor, level, far)
  {
    hide SlotWakeup, Width, StepsAhead;
    var w := Width(level);
    WakeupClosedForm(cursor, level, near);
    WakeupClosedForm(cursor, level, far);
    MulMonotone(w, cursor / w + StepsAhead(cursor, level, near),
                cursor / w + StepsAhead(cursor, level, far));
  }
}
