/** The hierarchical timer wheel: intrusive slot lists over a fixed slab, an
    occupancy set per level and a cached next event.

    The wheel refines a plain map from handles to timers. `Timers()` is that
    map; the ghost fields name the lists the links spell out. */
module TimerWheel {
  import opened Options
  import opened Sequences
  import opened MachineWords
  import opened TimerPlacement
  import opened TimerLists
  import opened Bits

  // ---- Abstraction -----------------------------------------------------------

  ghost predicate Live<T>(es: seq<Entry<T>>, x: int) {
    0 <= x < |es| && es[x].token.Some?
  }

  ghost function LiveSet<T>(es: seq<Entry<T>>): set<nat> {
    set x | 0 <= x < |es| && es[x].token.Some?
  }

  ghost function Ids<T>(es: seq<Entry<T>>, wheel: nat): set<TimerId> {
    set x | 0 <= x < |es| && es[x].token.Some? :: TimerId(wheel, es[x].generation, x)
  }

  /** The map the wheel stands for: every live handle with its timer. */
  ghost function TimersOf<T>(es: seq<Entry<T>>, wheel: nat): map<TimerId, Timer<T>> {
    map id | id in Ids(es, wheel) :: Timer(es[id.index].deadline, es[id.index].token.value)
  }

  ghost predicate Names<T>(es: seq<Entry<T>>, wheel: nat, id: TimerId) {
    id.wheel == wheel && Live(es, id.index) && es[id.index].generation == id.generation
  }

  lemma TimersMembership<T>(es: seq<Entry<T>>, wheel: nat, id: TimerId)
    ensures id in TimersOf(es, wheel) <==> Names(es, wheel, id)
    ensures Names(es, wheel, id) ==>
              TimersOf(es, wheel)[id] == Timer(es[id.index].deadline, es[id.index].token.value)
  {
  }

  // ---- Invariants on values ----------------------------------------------------

  /** A level's occupancy bit is set exactly when the slot's list is not empty. */
  ghost predicate Occupancy(occupied: seq<set<nat>>, lists: seq<seq<nat>>) {
    && |occupied| == LEVELS && |lists| == BUCKETS
    && (forall l, s :: 0 <= l < LEVELS && s in occupied[l] ==> s < SLOTS)
    && (forall l, s :: 0 <= l < LEVELS && 0 <= s < SLOTS ==>
          (s in occupied[l] <==> lists[Bucket(l, s)] != []))
  }

  /** Every entry is live, on the free list exactly once, or retired. */
  ghost predicate Slab<T>(es: seq<Entry<T>>, free: nat, freeList: seq<nat>, live: nat, retired: nat) {
    && |es| <= NIL
    && Linked(es, free, freeList)
    && (forall i :: 0 <= i < |freeList| ==> !Live(es, freeList[i]))
    && (forall x :: 0 <= x < |es| && es[x].token.None? ==> Spare(es[x], x, freeList))
    && (forall x :: 0 <= x < |es| ==> es[x].generation <= U64_MAX)
    && live == |LiveSet(es)|
    && |freeList| + live + retired == |es|
  }

  ghost predicate Spare<T>(e: Entry<T>, x: nat, freeList: seq<nat>) {
    || (e.level == FREE_LEVEL && e.generation < U64_MAX && x in freeList)
    || (e.level == RETIRED_LEVEL && e.generation == U64_MAX && x !in freeList)
  }

  /** No handle was ever issued for a generation its position has not reached. */
  ghost predicate Issued<T>(es: seq<Entry<T>>, wheel: nat, issued: set<TimerId>) {
    && (forall id :: id in issued ==>
          id.wheel == wheel && id.index < |es| && 0 < id.generation <= es[id.index].generation)
    && (forall x :: Live(es, x) ==> TimerId(wheel, es[x].generation, x) in issued)
  }

  ghost predicate DeadlinesInRange<T>(es: seq<Entry<T>>) {
    forall x :: Live(es, x) ==> es[x].deadline <= MAX_TICK
  }

  ghost predicate PlacedAt<T>(e: Entry<T>, cursor: nat) {
    Placed(cursor, e.deadline, e.level, e.slot)
  }

  ghost predicate ArrivedAt<T>(e: Entry<T>, cursor: nat) {
    Arrived(cursor, e.deadline, e.level, e.slot)
  }

  ghost predicate AllPlaced<T>(es: seq<Entry<T>>, cursor: nat, loose: set<nat>) {
    forall x :: Live(es, x) && x !in loose ==> PlacedAt(es[x], cursor)
  }

  ghost function DueOf<T>(e: Entry<T>, cursor: nat): nat {
    Due(cursor, e.deadline, e.level)
  }

  /** The cached event is the least tick at which any live timer is due. */
  ghost predicate NextExact<T>(es: seq<Entry<T>>, cursor: nat, next: nat) {
    && next <= U64_MAX
    && (forall x :: Live(es, x) ==> next <= DueOf(es[x], cursor))
    && (next < U64_MAX ==> exists x :: Live(es, x) && next == DueOf(es[x], cursor))
  }

  /** Only links, levels, slots and deadlines of live entries may differ. */
  ghost predicate Relinked<T>(es: seq<Entry<T>>, es': seq<Entry<T>>) {
    && |es'| == |es|
    && (forall x :: 0 <= x < |es| ==>
          && es'[x].token == es[x].token
          && es'[x].generation == es[x].generation
          && (es[x].token.None? ==> es'[x] == es[x]))
  }

  lemma RelinkedKeeps<T>(es: seq<Entry<T>>, es': seq<Entry<T>>, free: nat, freeList: seq<nat>,
                         live: nat, retired: nat, wheel: nat, issued: set<TimerId>)
    requires Relinked(es, es')
    requires Slab(es, free, freeList, live, retired) && Issued(es, wheel, issued)
    ensures Slab(es', free, freeList, live, retired) && Issued(es', wheel, issued)
  {
    assert LiveSet(es') == LiveSet(es);
    forall i | 0 <= i < |freeList| ensures es'[freeList[i]] == es[freeList[i]] {
      assert !Live(es, freeList[i]);
    }
  }

  // ---- The next event ------------------------------------------------------------

  /** `w` is the least wakeup of the slots of `level` in `bits`, or the empty
      sentinel when there are none. */
  ghost predicate LeastInLevel(cursor: nat, level: nat, bits: set<nat>, w: nat) {
    && w <= U64_MAX
    && (forall s :: s in bits ==> w <= SlotWakeup(cursor, level, s))
    && (w < U64_MAX ==> exists s :: s in bits && w == SlotWakeup(cursor, level, s))
  }

  /** `w` is the least wakeup of any occupied slot of the first `levels` levels. */
  ghost predicate LeastWakeup(cursor: nat, occupied: seq<set<nat>>, levels: nat, w: nat)
    requires levels <= |occupied|
  {
    && w <= U64_MAX
    && (forall l, s :: 0 <= l < levels && s in occupied[l] ==> w <= SlotWakeup(cursor, l, s))
    && (w < U64_MAX ==> exists l, s :: 0 <= l < levels && s in occupied[l] && w == SlotWakeup(cursor, l, s))
  }

  /** One level's share of the scan: the slots after the cursor's own by rotating
      the word, the cursor's own apart. */
  method LevelWakeup(cursor: nat, level: nat, bits: set<nat>) returns (soonest: nat)
    requires forall s :: s in bits ==> s < SLOTS
    ensures LeastInLevel(cursor, level, bits, soonest)
  {
    hide SlotWakeup, Here, RotateRight, TrailingZeros, LowestFrom, Width, Pow2;
    soonest := U64_MAX;
    var here := Here(cursor, level);
    var other := bits - {here};
    assert forall s :: s in bits ==> s == here || s in other;
    if other != {} {
      NearestSlot(cursor, level, other);
      var slot := (here + TrailingZeros(RotateRight(other, here))) % SLOTS;
      soonest := Min(soonest, SlotWakeup(cursor, level, slot));
      assert slot in bits;
    }
    if here in bits {
      soonest := Min(soonest, SlotWakeup(cursor, level, here));
    }
  }

  /** The least wakeup of any occupied slot, or the empty sentinel. */
  method ComputeNextEvent(cursor: nat, occupied: seq<set<nat>>) returns (soonest: nat)
    requires |occupied| == LEVELS
    requires forall l, s :: 0 <= l < LEVELS && s in occupied[l] ==> s < SLOTS
    ensures LeastWakeup(cursor, occupied, LEVELS, soonest)
  {
    hide SlotWakeup;
    soonest := U64_MAX;
    for level := 0 to LEVELS
      invariant LeastWakeup(cursor, occupied, level, soonest)
    {
      var w := LevelWakeup(cursor, level, occupied[level]);
      soonest := Min(soonest, w);
    }
  }

  /** The slot the rotated word names first has the least wakeup of its level. */
  lemma NearestSlot(cursor: nat, level: nat, other: set<nat>)
    requires other != {} && forall s :: s in other ==> s < SLOTS && s != Here(cursor, level)
    ensures var here := Here(cursor, level);
            var slot := (here + TrailingZeros(RotateRight(other, here))) % SLOTS;
            slot in other && forall s :: s in other ==> SlotWakeup(cursor, level, slot) <= SlotWakeup(cursor, level, s)
  {
    hide SlotWakeup, Here;
    var here := Here(cursor, level);
    Bits.RotationFindsNearest(other, here);
    var slot := (here + TrailingZeros(RotateRight(other, here))) % SLOTS;
    forall s | s in other ensures SlotWakeup(cursor, level, slot) <= SlotWakeup(cursor, level, s) {
      StepsOfOthers(cursor, level, slot);
      StepsOfOthers(cursor, level, s);
      CircularOrder(cursor, level, slot, s);
    }
  }

  lemma StepsOfOthers(cursor: nat, level: nat, slot: nat)
    requires slot < SLOTS && slot != Here(cursor, level)
    ensures StepsAhead(cursor, level, slot) == Ahead(slot, Here(cursor, level))
  {
  }

  /** Occupied slots and live timers wake at the same ticks. */
  lemma SlotOfTimer<T>(es: seq<Entry<T>>, heads: seq<nat>, lists: seq<seq<nat>>, occupied: seq<set<nat>>,
                       cursor: nat, x: nat)
    requires Wired(es, heads, lists, {}) && Occupancy(occupied, lists)
    requires AllPlaced(es, cursor, {}) && DeadlinesInRange(es) && cursor <= MAX_TICK
    requires Live(es, x)
    ensures es[x].level < LEVELS && es[x].slot in occupied[es[x].level]
    ensures SlotWakeup(cursor, es[x].level, es[x].slot) == DueOf(es[x], cursor)
    ensures cursor <= DueOf(es[x], cursor) <= Max(cursor, es[x].deadline) <= MAX_TICK
  {
    hide SlotWakeup, Due, Row;
    assert Shelved(es, lists, x) && PlacedAt(es[x], cursor);
    PlacedWakeup(cursor, es[x].deadline, es[x].level, es[x].slot);
  }

  lemma TimerOfSlot<T>(es: seq<Entry<T>>, heads: seq<nat>, lists: seq<seq<nat>>, occupied: seq<set<nat>>,
                       l: nat, s: nat) returns (x: nat)
    requires Wired(es, heads, lists, {}) && Occupancy(occupied, lists)
    requires l < LEVELS && s in occupied[l]
    ensures Live(es, x) && es[x].level == l && es[x].slot == s
  {
    var q := Bucket(l, s);
    assert lists[q] != [] && Row(es, heads[q], lists[q], q);
    x := lists[q][0];
    assert Filed(es[lists[q][0]]);
  }

  /** The least wakeup of an occupied slot and the least due tick of a live timer
      are the same number. */
  lemma {:induction false} LeastWakeupIsNext<T>(es: seq<Entry<T>>, heads: seq<nat>, lists: seq<seq<nat>>,
                                                occupied: seq<set<nat>>, cursor: nat, next: nat)
    requires Wired(es, heads, lists, {}) && Occupancy(occupied, lists)
    requires AllPlaced(es, cursor, {}) && DeadlinesInRange(es) && cursor <= MAX_TICK
    ensures LeastWakeup(cursor, occupied, LEVELS, next) <==> NextExact(es, cursor, next)
  {
    hide SlotWakeup, Due, Row, Wired, Occupancy, AllPlaced, DeadlinesInRange;
    OccupancyShape(occupied, lists);
    forall x | Live(es, x)
      ensures es[x].level < LEVELS && es[x].slot in occupied[es[x].level]
      ensures SlotWakeup(cursor, es[x].level, es[x].slot) == DueOf(es[x], cursor)
    {
      SlotOfTimer(es, heads, lists, occupied, cursor, x);
    }
    forall l, s | 0 <= l < LEVELS && s in occupied[l]
      ensures exists x :: Live(es, x) && es[x].level == l && es[x].slot == s
    {
      var x := TimerOfSlot(es, heads, lists, occupied, l, s);
    }
  }

  // ---- Weight ----------------------------------------------------------------------

  /** Levels left to descend, plus one for firing, summed over live timers. */
  ghost function Weight<T>(es: seq<Entry<T>>): nat {
    if es == [] then 0
    else Weight(es[..|es| - 1]) + Share(es[|es| - 1])
  }

  ghost function Share<T>(e: Entry<T>): nat {
    if e.token.Some? then e.level + 1 else 0
  }

  lemma {:induction false} WeightDrops<T>(es: seq<Entry<T>>, es': seq<Entry<T>>, x: nat)
    requires |es| == |es'| && forall y :: 0 <= y < |es| ==> Share(es'[y]) <= Share(es[y])
    ensures Weight(es') <= Weight(es)
    ensures x < |es| && Share(es'[x]) < Share(es[x]) ==> Weight(es') < Weight(es)
  {
    if es != [] {
      var n := |es| - 1;
      assert forall y :: 0 <= y < n ==> es[..n][y] == es[y] && es'[..n][y] == es'[y];
      WeightDrops(es[..n], es'[..n], x);
    }
  }

  lemma {:induction false} WeightBounded<T>(es: seq<Entry<T>>)
    requires forall y :: 0 <= y < |es| && es[y].token.Some? ==> es[y].level < LEVELS
    ensures Weight(es) <= LEVELS * |LiveSet(es)|
  {
    if es == [] {
    } else {
      var n := |es| - 1;
      var prefix := es[..n];
      assert forall y :: 0 <= y < n ==> prefix[y] == es[y];
      WeightBounded(prefix);
      assert n !in LiveSet(prefix);
      if es[n].token.Some? {
        assert LiveSet(es) == LiveSet(prefix) + {n};
      } else {
        assert LiveSet(es) == LiveSet(prefix);
      }
    }
  }

  // ---- Steps on values -------------------------------------------------------------

  lemma FileRelinks<T>(es: seq<Entry<T>>, head: nat, index: nat, deadline: nat, level: nat, slot: nat)
    requires index < |es| && es[index].token.Some? && (head != NIL ==> head < |es| && head != index)
    requires head != NIL ==> es[head].token.Some?
    ensures var es' := FileEntries(es, head, index, deadline, level, slot);
            && Relinked(es, es')
            && es'[index].token == es[index].token && es'[index].generation == es[index].generation
            && es'[index].deadline == deadline && es'[index].level == level && es'[index].slot == slot
            && (forall x :: 0 <= x < |es| && x != index ==> es'[x] == es[x].(prev := es'[x].prev))
            && (DeadlinesInRange(es) && deadline <= MAX_TICK ==> DeadlinesInRange(es'))
  {
  }

  lemma FileReady<T>(es: seq<Entry<T>>, heads: seq<nat>, lists: seq<seq<nat>>, loose: set<nat>, index: nat, q: nat)
    requires Wired(es, heads, lists, loose) && index in loose && q < BUCKETS
    ensures |heads| == |lists| == BUCKETS && index < |es| && es[index].token.Some?
    ensures heads[q] != NIL ==> heads[q] < |es| && heads[q] != index && es[heads[q]].token.Some?
  {
  }

  lemma OccupancyShape(occupied: seq<set<nat>>, lists: seq<seq<nat>>)
    requires Occupancy(occupied, lists)
    ensures |occupied| == LEVELS && |lists| == BUCKETS
    ensures forall l, s :: 0 <= l < LEVELS && s in occupied[l] ==> s < SLOTS
  {
  }

  lemma FileKeepsOccupancy(occupied: seq<set<nat>>, lists: seq<seq<nat>>, level: nat, slot: nat, index: nat)
    requires Occupancy(occupied, lists) && level < LEVELS && slot < SLOTS
    ensures Occupancy(occupied[level := occupied[level] + {slot}],
                      lists[Bucket(level, slot) := [index] + lists[Bucket(level, slot)]])
  {
  }

  lemma RemoveKeepsOccupancy(occupied: seq<set<nat>>, lists: seq<seq<nat>>, level: nat, slot: nat, xs: seq<nat>)
    requires Occupancy(occupied, lists) && level < LEVELS && slot < SLOTS
    requires xs != [] ==> lists[Bucket(level, slot)] != []
    ensures Occupancy(if xs == [] then occupied[level := occupied[level] - {slot}] else occupied,
                      lists[Bucket(level, slot) := xs])
  {
  }

  // ---- The wheel -------------------------------------------------------------------

  /** Where a filed entry sits in its slot's list, and what its links then say. */
  lemma UnlinkReady<T>(es: seq<Entry<T>>, heads: seq<nat>, lists: seq<seq<nat>>, loose: set<nat>, index: nat)
    returns (q: nat, k: nat)
    requires Wired(es, heads, lists, loose) && Live(es, index) && index !in loose
    ensures |heads| == |lists| == BUCKETS && |es| <= NIL
    ensures es[index].level < LEVELS && es[index].slot < SLOTS && q == Bucket(es[index].level, es[index].slot)
    ensures k < |lists[q]| && lists[q][k] == index
    ensures es[index].prev == At(lists[q], k - 1) && es[index].next == At(lists[q], k + 1)
    ensures forall i :: 0 <= i < |lists[q]| ==> lists[q][i] < |es| && Live(es, lists[q][i])
    ensures if k == 0 then es[index].prev == NIL else es[index].prev != index && Live(es, es[index].prev)
    ensures if k == |lists[q]| - 1 then es[index].next == NIL
            else es[index].next != index && Live(es, es[index].next)
  {
    assert Shelved(es, lists, index);
    q := Bucket(es[index].level, es[index].slot);
    assert Row(es, heads[q], lists[q], q);
    k :| 0 <= k < |lists[q]| && lists[q][k] == index;
    RowNeighbours(es, heads[q], lists[q], q, k);
    RowDistinct(es, heads[q], lists[q], q);
  }

  lemma UnlinkRelinks<T>(es: seq<Entry<T>>, index: nat)
    requires Live(es, index)
    requires es[index].prev != NIL ==> Live(es, es[index].prev) && es[index].prev != index
    requires es[index].next != NIL ==> Live(es, es[index].next) && es[index].next != index
    ensures var es' := UnlinkEntries(es, index);
            && Relinked(es, es') && es'[index] == es[index]
            && (forall x :: 0 <= x < |es| ==> es'[x] == es[x].(next := es'[x].next, prev := es'[x].prev))
            && (DeadlinesInRange(es) ==> DeadlinesInRange(es'))
  {
  }

  lemma UnlinkKeepsOccupancy(occupied: seq<set<nat>>, lists: seq<seq<nat>>, level: nat, slot: nat, k: nat)
    requires Occupancy(occupied, lists) && level < LEVELS && slot < SLOTS
    requires k < |lists[Bucket(level, slot)]|
    ensures Occupancy(if k == 0 && |lists[Bucket(level, slot)]| == 1
                      then occupied[level := occupied[level] - {slot}] else occupied,
                      lists[Bucket(level, slot) := Cut(lists[Bucket(level, slot)], k)])
  {
  }

  lemma TakeReady<T>(es: seq<Entry<T>>, heads: seq<nat>, lists: seq<seq<nat>>, loose: set<nat>,
                     level: nat, slot: nat) returns (xs: seq<nat>)
    requires Wired(es, heads, lists, loose) && level < LEVELS && slot < SLOTS
    ensures |heads| == |lists| == BUCKETS && xs == lists[Bucket(level, slot)]
    ensures forall x :: x in xs <==>
              Live(es, x) && x !in loose && es[x].level == level && es[x].slot == slot
  {
    var q := Bucket(level, slot);
    xs := lists[q];
    assert Row(es, heads[q], xs, q);
    RowDistinct(es, heads[q], xs, q);
    forall x | x in xs
      ensures Live(es, x) && x !in loose && es[x].level == level && es[x].slot == slot
    {
      var i :| 0 <= i < |xs| && xs[i] == x;
      assert Filed(es[xs[i]]) && Bucket(es[xs[i]].level, es[xs[i]].slot) == q;
    }
    forall x | Live(es, x) && x !in loose && es[x].level == level && es[x].slot == slot ensures x in xs {
      assert Shelved(es, lists, x);
    }
  }

  /** A loose entry can be rewritten freely while it stays live. */
  lemma LooseAdd<T>(es: seq<Entry<T>>, heads: seq<nat>, lists: seq<seq<nat>>, loose: set<nat>, x: nat, e: Entry<T>)
    requires Wired(es, heads, lists, loose) && x < |es|
    requires es[x].token.None? || x in loose
    ensures e.token.Some? ==> Wired(es[x := e], heads, lists, loose + {x})
    ensures e.token.None? ==> Wired(es[x := e], heads, lists, loose - {x})
  {
  }

  lemma FreeHead<T>(es: seq<Entry<T>>, free: nat, freeList: seq<nat>, live: nat, retired: nat)
    requires Slab(es, free, freeList, live, retired) && free != NIL
    ensures free < |es| && freeList != [] && es[free].token.None?
  {
  }

  lemma GenerationBound<T>(es: seq<Entry<T>>, free: nat, freeList: seq<nat>, live: nat, retired: nat, x: nat)
    requires Slab(es, free, freeList, live, retired) && x < |es|
    ensures es[x].generation <= U64_MAX
  {
  }

  lemma LinkedTail<T>(es: seq<Entry<T>>, head: nat, xs: seq<nat>, e: Entry<T>)
    requires Linked(es, head, xs) && xs != []
    ensures es[head].next == At(xs[1..], 0)
    ensures Linked(es[head := e], es[head].next, xs[1..])
    ensures head !in xs[1..] && forall x :: x in xs <==> x == head || x in xs[1..]
  {
  }

  lemma LinkedCons<T>(es: seq<Entry<T>>, head: nat, xs: seq<nat>, x: nat, e: Entry<T>)
    requires Linked(es, head, xs) && x < |es| && x !in xs && e.next == head
    ensures Linked(es[x := e], x, [x] + xs)
  {
  }

  lemma AllocateKeepsSlab<T>(es: seq<Entry<T>>, free: nat, freeList: seq<nat>, live: nat, retired: nat, e: Entry<T>)
    requires Slab(es, free, freeList, live, retired) && free < |es| && freeList != [] && es[free].token.None?
    requires e.token.Some? && e.generation == es[free].generation + 1
    ensures es[free].generation < U64_MAX
    ensures Slab(es[free := e], es[free].next, freeList[1..], live + 1, retired)
  {
    hide Linked;
    LinkedTail(es, free, freeList, e);
    var es', rest := es[free := e], freeList[1..];
    assert Spare(es[free], free, freeList);
    assert LiveSet(es') == LiveSet(es) + {free};
    forall i | 0 <= i < |rest| ensures !Live(es', rest[i]) {
      assert rest[i] == freeList[i + 1] && !Live(es, freeList[i + 1]) && rest[i] in rest;
    }
    forall x | 0 <= x < |es'| && es'[x].token.None? ensures Spare(es'[x], x, rest) {
      assert Spare(es[x], x, freeList);
    }
  }

  lemma ReleaseKeepsSlab<T>(es: seq<Entry<T>>, free: nat, freeList: seq<nat>, live: nat, retired: nat,
                            x: nat, e: Entry<T>)
    requires Slab(es, free, freeList, live, retired) && Live(es, x)
    requires e.token.None? && e.generation == es[x].generation
    requires e.generation < U64_MAX ==> e.level == FREE_LEVEL && e.next == free
    requires e.generation == U64_MAX ==> e.level == RETIRED_LEVEL
    ensures live > 0
    ensures if e.generation == U64_MAX then Slab(es[x := e], free, freeList, live - 1, retired + 1)
            else Slab(es[x := e], x, [x] + freeList, live - 1, retired)
  {
    hide Linked;
    var es' := es[x := e];
    assert x !in freeList by { NotListed(freeList, x, es); }
    assert LiveSet(es') == LiveSet(es) - {x} && x in LiveSet(es);
    forall y | 0 <= y < |es'| && es'[y].token.None? && y != x ensures Spare(es[y], y, freeList) {
    }
    if e.generation < U64_MAX {
      LinkedCons(es, free, freeList, x, e);
      var more := [x] + freeList;
      assert forall y :: y in more <==> y == x || y in freeList;
    } else {
      LinkedUpdate(es, free, freeList, x, e);
    }
  }

  lemma NotListed<T>(freeList: seq<nat>, x: nat, es: seq<Entry<T>>)
    requires Live(es, x) && forall i :: 0 <= i < |freeList| ==> !Live(es, freeList[i])
    ensures x !in freeList
  {
  }

  lemma LinkedUpdate<T>(es: seq<Entry<T>>, head: nat, xs: seq<nat>, x: nat, e: Entry<T>)
    requires Linked(es, head, xs) && x < |es| && x !in xs
    ensures Linked(es[x := e], head, xs)
  {
  }

  /** What an event may do to live timers before they fire: only move them down. */
  ghost predicate Descended<T>(es: seq<Entry<T>>, es': seq<Entry<T>>) {
    && Relinked(es, es')
    && (forall x :: Live(es, x) ==> es'[x].deadline == es[x].deadline && es'[x].level <= es[x].level)
  }

  /** Placed, or still waiting in the cursor's slot of a level below `level`. */
  ghost predicate Settled<T>(e: Entry<T>, cursor: nat, level: nat) {
    PlacedAt(e, cursor) || (ArrivedAt(e, cursor) && e.level < level)
  }

  ghost predicate AllSettled<T>(es: seq<Entry<T>>, cursor: nat, level: nat, loose: set<nat>) {
    forall x :: Live(es, x) && x !in loose ==> Settled(es[x], cursor, level)
  }

  /** Refiling a timer from the cursor's coarse slot never moves it up. */
  lemma RefileDescends(cursor: nat, deadline: nat, level: nat, slot: nat)
    requires 0 < level < LEVELS && slot == Here(cursor, level)
    requires Placed(cursor, deadline, level, slot) || Arrived(cursor, deadline, level, slot)
    ensures DeadlineFits(cursor, deadline)
    ensures PlaceLevel(cursor, deadline) <= level
    ensures Arrived(cursor, deadline, level, slot) ==> PlaceLevel(cursor, deadline) < level
  {
    if Arrived(cursor, deadline, level, slot) {
      CascadeDescends(cursor, deadline, level, slot);
    } else {
      OnlyTopLevelWraps(cursor, deadline, level);
    }
  }

  ghost predicate AwaitsRefile<T>(e: Entry<T>, cursor: nat, level: nat) {
    e.level == level && e.slot == Here(cursor, level) && Settled(e, cursor, level + 1)
  }

  lemma CascadeStart<T>(es: seq<Entry<T>>, cursor: nat, level: nat, xs: seq<nat>)
    requires AllSettled(es, cursor, level + 1, {})
    requires forall x :: x in xs <==> Live(es, x) && es[x].level == level && es[x].slot == Here(cursor, level)
    ensures AllSettled(es, cursor, level, Members(xs))
  {
  }

  lemma LinkedNext<T>(es: seq<Entry<T>>, head: nat, xs: seq<nat>)
    requires Linked(es, head, xs) && head != NIL
    ensures xs != [] && head == xs[0] && head < |es|
    ensures Linked(es, es[head].next, xs[1..]) && head !in xs[1..]
    ensures Members(xs[1..]) == Members(xs) - {head}
  {
  }

  lemma LinkedEnd<T>(es: seq<Entry<T>>, xs: seq<nat>)
    requires Linked(es, NIL, xs) && |es| <= NIL
    ensures xs == []
  {
  }

  lemma LinkedSurvivesFile<T>(es: seq<Entry<T>>, es': seq<Entry<T>>, head: nat, xs: seq<nat>, index: nat)
    requires Linked(es, head, xs) && index !in xs && |es'| == |es|
    requires forall x :: 0 <= x < |es| && x != index ==> es'[x] == es[x].(prev := es'[x].prev)
    ensures Linked(es', head, xs)
  {
  }

  /** Nothing in the cursor's slot of this level: no timer was waiting there. */
  lemma NoneAwaiting<T>(es: seq<Entry<T>>, heads: seq<nat>, lists: seq<seq<nat>>, occupied: seq<set<nat>>,
                        cursor: nat, level: nat)
    requires Wired(es, heads, lists, {}) && Occupancy(occupied, lists)
    requires 0 < level < LEVELS && Here(cursor, level) !in occupied[level]
    requires AllSettled(es, cursor, level + 1, {})
    ensures AllSettled(es, cursor, level, {})
  {
  }

  lemma DescendedTwice<T>(a: seq<Entry<T>>, b: seq<Entry<T>>, c: seq<Entry<T>>)
    requires Descended(a, b) && Descended(b, c)
    ensures Descended(a, c)
  {
  }

  lemma DescendedTimers<T>(es: seq<Entry<T>>, es': seq<Entry<T>>, wheel: nat)
    requires Descended(es, es')
    ensures TimersOf(es', wheel) == TimersOf(es, wheel)
  {
  }

  /** The timers of the firing slot are exactly those whose deadline has come. */
  lemma FiringSlotIsDue(cursor: nat, deadline: nat, level: nat, slot: nat)
    requires Placed(cursor, deadline, level, slot)
    ensures level == 0 && slot == cursor % SLOTS <==> deadline <= cursor
  {
  }

  ghost predicate Emits<T>(es: seq<Entry<T>>, x: nat, token: T) {
    x < |es| && es[x].token == Some(token)
  }

  /** What a burst leaves: the fired positions empty, everything else untouched. */
  ghost predicate Fired<T>(es: seq<Entry<T>>, es': seq<Entry<T>>, burst: seq<nat>) {
    && |es'| == |es|
    && (forall x :: 0 <= x < |es| && x !in burst ==> es'[x] == es[x])
    && (forall x :: 0 <= x < |es| && x in burst ==> es'[x].token.None?)
  }

  lemma FiredMore<T>(es: seq<Entry<T>>, before: seq<Entry<T>>, after: seq<Entry<T>>, burst: seq<nat>, x: nat)
    requires Fired(es, before, burst) && x < |es| && |after| == |es|
    requires after == before[x := after[x]] && after[x].token.None?
    ensures Fired(es, after, burst + [x])
  {
  }

  ghost function IdsOf<T>(es: seq<Entry<T>>, wheel: nat, xs: seq<nat>): (ids: seq<TimerId>)
    requires forall i :: 0 <= i < |xs| ==> xs[i] < |es|
    ensures |ids| == |xs|
  {
    seq(|xs|, i requires 0 <= i < |xs| => TimerId(wheel, es[xs[i]].generation, xs[i]))
  }

  /** The map without the timers of `gone`. */
  ghost function Minus<T>(timers: map<TimerId, Timer<T>>, gone: seq<TimerId>): map<TimerId, Timer<T>> {
    map id | id in timers && id !in gone :: timers[id]
  }

  lemma FiredTimers<T>(es: seq<Entry<T>>, es': seq<Entry<T>>, wheel: nat, burst: seq<nat>)
    requires Fired(es, es', burst)
    requires forall i :: 0 <= i < |burst| ==> burst[i] < |es| && Live(es, burst[i])
    ensures TimersOf(es', wheel) == Minus(TimersOf(es, wheel), IdsOf(es, wheel, burst))
  {
    var ids := IdsOf(es, wheel, burst);
    forall id ensures id in TimersOf(es', wheel) <==> id in TimersOf(es, wheel) && id !in ids {
      TimersMembership(es, wheel, id);
      TimersMembership(es', wheel, id);
      if Names(es, wheel, id) && id.index in burst {
        var i :| 0 <= i < |burst| && burst[i] == id.index;
        assert ids[i] == id;
      }
    }
  }

  /** When the cursor lands on the next event, every timer is still placed, or
      waits in a coarse slot the cursor has reached; what is due is due now. */
  lemma LandOnEvent<T>(es: seq<Entry<T>>, cursor: nat, event: nat, x: nat)
    requires AllPlaced(es, cursor, {}) && DeadlinesInRange(es) && NextExact(es, cursor, event)
    requires cursor <= MAX_TICK && event < U64_MAX && Live(es, x)
    ensures cursor <= event
    ensures Settled(es[x], event, LEVELS)
    ensures es[x].deadline <= event ==> Max(es[x].deadline, cursor) == event
    ensures DueOf(es[x], cursor) == event ==> es[x].deadline <= event || ArrivedAt(es[x], event)
  {
    hide Due, Placed, Arrived;
    var w :| Live(es, w) && event == DueOf(es[w], cursor);
    assert PlacedAt(es[w], cursor) && PlacedAt(es[x], cursor);
    PlacedWakeup(cursor, es[w].deadline, es[w].level, es[w].slot);
    PlacedWakeup(cursor, es[x].deadline, es[x].level, es[x].slot);
    if event < DueOf(es[x], cursor) {
      SkipKeepsPlaced(cursor, event, es[x].deadline, es[x].level, es[x].slot);
    } else {
      LandingArrives(cursor, event, es[x].deadline, es[x].level, es[x].slot);
      ArrivedLevel(event, es[x].deadline, es[x].level, es[x].slot);
    }
  }

  lemma ArrivedLevel(cursor: nat, deadline: nat, level: nat, slot: nat)
    requires level != 0 ==> Arrived(cursor, deadline, level, slot)
    ensures level < LEVELS
  {
  }

  /** A timer that had arrived and is now placed has moved down. */
  lemma PlacedHasLeft(cursor: nat, deadline: nat, level: nat, slot: nat, slot': nat)
    requires Arrived(cursor, deadline, level, slot)
    ensures !Placed(cursor, deadline, level, slot')
  {
  }

  /** Every event fires a timer or moves one to a lower level. */
  lemma EventLowersWeight<T>(es: seq<Entry<T>>, es1: seq<Entry<T>>, es2: seq<Entry<T>>, burst: seq<nat>,
                             event: nat, x: nat)
    requires Descended(es, es1) && Fired(es1, es2, burst) && AllPlaced(es1, event, {})
    requires Live(es, x) && (es[x].deadline <= event || ArrivedAt(es[x], event))
    requires es[x].deadline <= event ==> x in burst
    ensures Weight(es2) < Weight(es)
  {
    hide Placed, Arrived;
    assert PlacedAt(es1[x], event);
    if ArrivedAt(es[x], event) {
      PlacedHasLeft(event, es[x].deadline, es[x].level, es[x].slot, es1[x].slot);
    }
    WeightDrops(es, es2, x);
  }

  lemma ArrivedIsCoarse<T>(e: Entry<T>, cursor: nat)
    requires Settled(e, cursor, 1)
    ensures PlacedAt(e, cursor)
  {
  }

  lemma LinkedDistinct<T>(es: seq<Entry<T>>, head: nat, xs: seq<nat>)
    requires Linked(es, head, xs)
    ensures Distinct(xs)
  {
  }

  lemma NextFromRest(xs: seq<nat>, done: seq<nat>, rest: seq<nat>)
    requires Distinct(xs) && xs == done + rest && rest != []
    ensures rest[0] !in done && xs == (done + [rest[0]]) + rest[1..]
  {
    assert xs[|done|] == rest[0];
    assert forall i :: 0 <= i < |done| ==> xs[i] == done[i];
  }

  // ---- What an advance emits ----------------------------------------------------------

  /** One event's burst: exactly the timers whose deadline the event reaches, each
      of them due at the event's own tick. */
  ghost predicate BurstAt<T>(timers: map<TimerId, Timer<T>>, from: nat, event: nat,
                             burst: seq<TimerId>, out: seq<T>) {
    && Carries(timers, burst, out)
    && (forall id :: id in timers ==> (id in burst <==> timers[id].deadline <= event))
    && (forall id :: id in burst ==> Max(timers[id].deadline, from) == event)
  }

  /** `ids` are distinct handles of the map and `out` their tokens, in order. */
  ghost predicate Carries<T>(timers: map<TimerId, Timer<T>>, ids: seq<TimerId>, out: seq<T>) {
    && |ids| == |out|
    && (forall i, j :: 0 <= i < j < |ids| ==> ids[i] != ids[j])
    && (forall i :: 0 <= i < |ids| ==> ids[i] in timers && timers[ids[i]].token == out[i])
  }

  /** The tick at which a timer fires when the wheel starts from `from`. */
  ghost function FiresAt<T>(timer: Timer<T>, from: nat): nat {
    Max(timer.deadline, from)
  }

  ghost predicate InOrder<T>(timers: map<TimerId, Timer<T>>, from: nat, ids: seq<TimerId>)
    requires forall i :: 0 <= i < |ids| ==> ids[i] in timers
  {
    forall i, j :: 0 <= i < j < |ids| ==> FiresAt(timers[ids[i]], from) <= FiresAt(timers[ids[j]], from)
  }

  /** What an advance from `from` to `target` must emit: every timer due by then
      and no other, once each, in the order they fire. */
  ghost predicate Emitted<T>(timers: map<TimerId, Timer<T>>, from: nat, target: nat,
                             fired: seq<TimerId>, out: seq<T>) {
    && Carries(timers, fired, out)
    && InOrder(timers, from, fired)
    && (forall id :: id in timers ==> (id in fired <==> timers[id].deadline <= target))
  }

  /** Part way: the cursor is at `at`, and nothing fired is later than that. */
  ghost predicate Underway<T>(timers: map<TimerId, Timer<T>>, from: nat, at: nat,
                              fired: seq<TimerId>, out: seq<T>) {
    && from <= at
    && Carries(timers, fired, out)
    && InOrder(timers, from, fired)
    && (forall id :: id in fired ==> FiresAt(timers[id], from) <= at)
    && ((at == from && fired == [])
        || forall id :: id in timers ==> (id in fired <==> timers[id].deadline <= at))
  }

  lemma UnderwayStep<T>(timers: map<TimerId, Timer<T>>, from: nat, at: nat, fired: seq<TimerId>, out: seq<T>,
                        event: nat, burst: seq<TimerId>, more: seq<T>)
    requires Underway(timers, from, at, fired, out) && at <= event
    requires BurstAt(Minus(timers, fired), at, event, burst, more)
    ensures Underway(timers, from, event, fired + burst, out + more)
    ensures Minus(Minus(timers, fired), burst) == Minus(timers, fired + burst)
  {
    var all, tokens := fired + burst, out + more;
    forall id | id in burst ensures id in timers && id !in fired && FiresAt(timers[id], from) == event {
      var i :| 0 <= i < |burst| && burst[i] == id;
      assert burst[i] in Minus(timers, fired);
    }
    forall i | 0 <= i < |all| ensures all[i] in timers && timers[all[i]].token == tokens[i] {
      if i >= |fired| { assert all[i] == burst[i - |fired|]; }
    }
    forall i, j | 0 <= i < j < |all|
      ensures all[i] != all[j] && FiresAt(timers[all[i]], from) <= FiresAt(timers[all[j]], from)
    {
      if i < |fired| <= j {
        assert all[i] == fired[i] && all[i] in fired && all[j] in burst;
      } else if j < |fired| {
      } else {
        assert all[i] in burst && all[j] in burst;
        assert burst[i - |fired|] != burst[j - |fired|];
      }
    }
    forall id | id in timers ensures id in all <==> timers[id].deadline <= event {
      if id !in fired { assert id in Minus(timers, fired); }
    }
    forall id | id in all ensures FiresAt(timers[id], from) <= event {
    }
  }

  lemma UnderwayEnds<T>(timers: map<TimerId, Timer<T>>, from: nat, at: nat, fired: seq<TimerId>, out: seq<T>,
                        target: nat)
    requires Underway(timers, from, at, fired, out) && at <= target
    requires forall id :: id in Minus(timers, fired) ==> target < Minus(timers, fired)[id].deadline
    ensures Emitted(timers, from, target, fired, out)
  {
    forall id | id in timers ensures id in fired <==> timers[id].deadline <= target {
      if id !in fired { assert id in Minus(timers, fired); }
    }
  }

  /** Before the next event the cursor can move freely: nothing is due. */
  lemma SkipTo<T>(es: seq<Entry<T>>, cursor: nat, next: nat, target: nat)
    requires AllPlaced(es, cursor, {}) && DeadlinesInRange(es) && NextExact(es, cursor, next)
    requires cursor <= target <= MAX_TICK && target < next
    ensures AllPlaced(es, target, {}) && NextExact(es, target, next)
    ensures forall x :: Live(es, x) ==> target < es[x].deadline
  {
    hide Due, Placed;
    forall x | Live(es, x)
      ensures PlacedAt(es[x], target) && DueOf(es[x], target) == DueOf(es[x], cursor)
      ensures target < es[x].deadline
    {
      assert PlacedAt(es[x], cursor);
      PlacedWakeup(cursor, es[x].deadline, es[x].level, es[x].slot);
      SkipKeepsPlaced(cursor, target, es[x].deadline, es[x].level, es[x].slot);
    }
  }

  lemma TimersAfter<T>(es: seq<Entry<T>>, wheel: nat, target: nat)
    requires forall x :: Live(es, x) ==> target < es[x].deadline
    ensures forall id :: id in TimersOf(es, wheel) ==> target < TimersOf(es, wheel)[id].deadline
  {
  }

  lemma BurstOfFire<T>(es: seq<Entry<T>>, wheel: nat, from: nat, event: nat, burst: seq<nat>, out: seq<T>)
    requires Distinct(burst) && |burst| == |out|
    requires forall i :: 0 <= i < |burst| ==> burst[i] < |es| && Emits(es, burst[i], out[i])
    requires forall x :: Live(es, x) ==> (x in burst <==> es[x].deadline <= event)
    requires forall x :: Live(es, x) && es[x].deadline <= event ==> Max(es[x].deadline, from) == event
    ensures BurstAt(TimersOf(es, wheel), from, event, IdsOf(es, wheel, burst), out)
  {
  }

  lemma FiledLevels<T>(es: seq<Entry<T>>, heads: seq<nat>, lists: seq<seq<nat>>)
    requires Wired(es, heads, lists, {})
    ensures forall x :: 0 <= x < |es| && es[x].token.Some? ==> es[x].level < LEVELS
  {
  }

  lemma LiveCount<T>(es: seq<Entry<T>>, free: nat, freeList: seq<nat>, live: nat, retired: nat)
    requires Slab(es, free, freeList, live, retired)
    ensures live == |LiveSet(es)|
  {
  }

  lemma EventFacts<T>(es: seq<Entry<T>>, es1: seq<Entry<T>>, es2: seq<Entry<T>>, wheel: nat,
                      from: nat, event: nat, burst: seq<nat>, out: seq<T>, x: nat)
    requires Descended(es, es1) && Fired(es1, es2, burst) && AllPlaced(es1, event, {})
    requires Distinct(burst) && |burst| == |out|
    requires forall i :: 0 <= i < |burst| ==> Emits(es1, burst[i], out[i])
    requires forall y :: Live(es1, y) ==> (y in burst <==> es1[y].deadline <= event)
    requires forall y :: Live(es, y) && es[y].deadline <= event ==> Max(es[y].deadline, from) == event
    requires Live(es, x) && (es[x].deadline <= event || ArrivedAt(es[x], event))
    ensures forall i :: 0 <= i < |burst| ==> burst[i] < |es1|
    ensures TimersOf(es2, wheel) == Minus(TimersOf(es, wheel), IdsOf(es1, wheel, burst))
    ensures BurstAt(TimersOf(es, wheel), from, event, IdsOf(es1, wheel, burst), out)
    ensures Weight(es2) < Weight(es)
  {
    hide TimersOf, Weight, Placed, Arrived, IdsOf, Minus, BurstAt;
    forall i | 0 <= i < |burst| ensures burst[i] < |es1| && Live(es1, burst[i]) {
      assert Emits(es1, burst[i], out[i]);
    }
    DescendedTimers(es, es1, wheel);
    FiredTimers(es1, es2, wheel, burst);
    BurstOfFire(es1, wheel, from, event, burst, out);
    EventLowersWeight(es, es1, es2, burst, event, x);
  }

  // ---- What insert, cancel and reschedule leave -----------------------------------------

  /** Everything but entry `x` keeps its timer and its slot. */
  ghost predicate KeepsOthers<T>(es: seq<Entry<T>>, es': seq<Entry<T>>, x: nat) {
    && |es'| == |es|
    && (forall y :: 0 <= y < |es| && y != x ==>
          es'[y] == es[y].(next := es'[y].next, prev := es'[y].prev))
  }

  lemma OthersStayPlaced<T>(es: seq<Entry<T>>, es': seq<Entry<T>>, x: nat, cursor: nat)
    requires KeepsOthers(es, es', x) && AllPlaced(es, cursor, {})
    requires Live(es', x) ==> PlacedAt(es'[x], cursor)
    ensures AllPlaced(es', cursor, {})
  {
  }

  /** Filing a timer lowers the cached event to its due tick when that is sooner. */
  lemma NextAfterFiling<T>(es: seq<Entry<T>>, es': seq<Entry<T>>, x: nat, cursor: nat, next: nat, next': nat)
    requires KeepsOthers(es, es', x) && Live(es', x) && NextExact(es, cursor, next)
    requires Live(es, x) ==> EarliestElsewhere(es, cursor, next, x)
    requires DueOf(es'[x], cursor) <= U64_MAX && next' == Min(next, DueOf(es'[x], cursor))
    ensures NextExact(es', cursor, next')
  {
  }

  /** Some other live timer is due at the cached event, or there is none to find. */
  ghost predicate EarliestElsewhere<T>(es: seq<Entry<T>>, cursor: nat, next: nat, x: nat) {
    next < U64_MAX ==> exists w :: Live(es, w) && w != x && next == DueOf(es[w], cursor)
  }

  lemma NextAfterRemoval<T>(es: seq<Entry<T>>, es': seq<Entry<T>>, x: nat, cursor: nat, next: nat)
    requires KeepsOthers(es, es', x) && !Live(es', x) && NextExact(es, cursor, next)
    requires EarliestElsewhere(es, cursor, next, x)
    ensures NextExact(es', cursor, next)
  {
  }

  /** Unless it was alone in the slot that wakes first, taking a timer off its
      list cannot change the next event. */
  lemma EarliestSurvives<T>(es: seq<Entry<T>>, heads: seq<nat>, lists: seq<seq<nat>>, occupied: seq<set<nat>>,
                            cursor: nat, next: nat, x: nat)
    requires Wired(es, heads, lists, {}) && Occupancy(occupied, lists)
    requires AllPlaced(es, cursor, {}) && DeadlinesInRange(es) && cursor <= MAX_TICK
    requires NextExact(es, cursor, next) && Live(es, x)
    requires es[x].prev != NIL || es[x].next != NIL || SlotWakeup(cursor, es[x].level, es[x].slot) != next
    ensures EarliestElsewhere(es, cursor, next, x)
  {
    hide Due, SlotWakeup, Row, Placed, Wired, Occupancy, AllPlaced, DeadlinesInRange;
    if next < U64_MAX {
      var w :| Live(es, w) && next == DueOf(es[w], cursor);
      if w == x {
        SlotOfTimer(es, heads, lists, occupied, cursor, x);
        var z := SlotMate(es, heads, lists, x);
        SlotOfTimer(es, heads, lists, occupied, cursor, z);
      }
    }
  }

  /** A linked neighbour shares the slot. */
  lemma SlotMate<T>(es: seq<Entry<T>>, heads: seq<nat>, lists: seq<seq<nat>>, x: nat) returns (z: nat)
    requires Wired(es, heads, lists, {}) && Live(es, x)
    requires es[x].prev != NIL || es[x].next != NIL
    ensures Live(es, z) && z != x && es[z].level == es[x].level && es[z].slot == es[x].slot
  {
    var q, k := UnlinkReady(es, heads, lists, {}, x);
    assert Row(es, heads[q], lists[q], q);
    z := if k > 0 then lists[q][k - 1] else lists[q][k + 1];
    assert Filed(es[lists[q][if k > 0 then k - 1 else k + 1]]);
    assert Bucket(es[z].level, es[z].slot) == q;
    RowNeighbours(es, heads[q], lists[q], q, k);
  }

  lemma TimersAfterWrite<T>(es: seq<Entry<T>>, es': seq<Entry<T>>, x: nat, wheel: nat)
    requires KeepsOthers(es, es', x) && x < |es|
    ensures var id, id' := TimerId(wheel, es[x].generation, x), TimerId(wheel, es'[x].generation, x);
            TimersOf(es', wheel)
            == if Live(es', x)
               then (TimersOf(es, wheel) - {id})[id' := Timer(es'[x].deadline, es'[x].token.value)]
               else TimersOf(es, wheel) - {id}
  {
  }

  /** The free list is empty exactly when every position is live or retired. */
  lemma FullWhen<T>(es: seq<Entry<T>>, free: nat, freeList: seq<nat>, live: nat, retired: nat)
    requires Slab(es, free, freeList, live, retired)
    ensures free == NIL <==> live + retired == |es|
  {
  }

  lemma UnderwayStart<T>(timers: map<TimerId, Timer<T>>, cursor: nat)
    ensures Underway(timers, cursor, cursor, [], [])
    ensures Minus(timers, []) == timers
  {
  }

  lemma NextInRange<T>(es: seq<Entry<T>>, cursor: nat, next: nat)
    requires NextExact(es, cursor, next) && next != U64_MAX
    ensures next <= MAX_TICK
  {
  }

  lemma {:induction false} CountTimers<T>(es: seq<Entry<T>>, wheel: nat)
    ensures |TimersOf(es, wheel)| == |LiveSet(es)|
  {
    var keys := TimersOf(es, wheel).Keys;
    assert keys == Ids(es, wheel) by {
      forall id ensures id in keys <==> id in Ids(es, wheel) { TimersMembership(es, wheel, id); }
    }
    SameCount(es, wheel, LiveSet(es));
    assert Ids(es, wheel) == (set x | x in LiveSet(es) :: TimerId(wheel, es[x].generation, x));
  }

  lemma {:induction false} SameCount<T>(es: seq<Entry<T>>, wheel: nat, xs: set<nat>)
    requires forall x :: x in xs ==> x < |es|
    ensures |set x | x in xs :: TimerId(wheel, es[x].generation, x)| == |xs|
    decreases |xs|
  {
    var ids := set x | x in xs :: TimerId(wheel, es[x].generation, x);
    if xs == {} {
      assert ids == {};
    } else {
      var x :| x in xs;
      var id := TimerId(wheel, es[x].generation, x);
      SameCount(es, wheel, xs - {x});
      assert ids == (set y | y in xs - {x} :: TimerId(wheel, es[y].generation, y)) + {id};
    }
  }

  function FreshEntries<T>(capacity: nat): seq<Entry<T>> {
    seq(capacity, i requires 0 <= i < capacity =>
      Entry(0, 0, None, if i + 1 < capacity then i + 1 else NIL, NIL, FREE_LEVEL, 0))
  }

  function Positions(capacity: nat): seq<nat> {
    seq(capacity, i requires 0 <= i < capacity => i)
  }

  lemma FreshIsValid<T>(capacity: nat, wheel: nat)
    requires capacity <= NIL
    ensures var es := FreshEntries<T>(capacity);
            && Wired(es, Repeat(NIL, BUCKETS), Repeat([], BUCKETS), {})
            && Occupancy(Repeat({}, LEVELS), Repeat([], BUCKETS))
            && Slab(es, if capacity == 0 then NIL else 0, Positions(capacity), 0, 0)
            && Issued(es, wheel, {}) && DeadlinesInRange(es)
            && TimersOf(es, wheel) == map[]
            && forall x :: !Live(es, x)
  {
    var es := FreshEntries<T>(capacity);
    assert LiveSet(es) == {};
    forall x: nat | x < |es| ensures Spare(es[x], x, Positions(capacity)) {
      assert Positions(capacity)[x] == x;
    }
  }

  class Wheel<T> {
    var entries: seq<Entry<T>>
    var free: nat
    var live: nat
    var retired: nat
    /** Head of slot `s` of level `l`, at `Bucket(l, s)`. */
    var heads: seq<nat>
    var occupied: seq<set<nat>>
    var cursor: nat
    var nextEvent: nat
    const wheelId: nat

    ghost var lists: seq<seq<nat>>
    ghost var freeList: seq<nat>
    /** Live entries an operation has taken off their list. */
    ghost var loose: set<nat>
    /** Every handle this wheel ever returned. */
    ghost var issued: set<TimerId>

    ghost predicate Structure()
      reads this
    {
      && Wired(entries, heads, lists, loose)
      && Occupancy(occupied, lists)
      && Slab(entries, free, freeList, live, retired)
      && Issued(entries, wheelId, issued)
      && DeadlinesInRange(entries)
      && cursor <= MAX_TICK
      && |entries| <= NIL
    }

    ghost predicate Valid()
      reads this
    {
      && Structure()
      && loose == {}
      && AllPlaced(entries, cursor, {})
      && NextExact(entries, cursor, nextEvent)
    }

    ghost function Timers(): map<TimerId, Timer<T>>
      reads this
    {
      TimersOf(entries, wheelId)
    }

    /** Point a loose entry and the list's old head at each other. */
    method LinkIn(index: nat, deadline: nat, head: nat, level: nat, slot: nat)
      requires index < |entries| && (head != NIL ==> head < |entries| && head != index)
      modifies `entries
      ensures entries == FileEntries(old(entries), head, index, deadline, level, slot)
    {
      entries := entries[index := entries[index].(deadline := deadline, next := head, prev := NIL,
                                                  level := level, slot := slot)];
      if head != NIL {
        entries := entries[head := entries[head].(prev := index)];
      }
    }

    /** File a loose entry under its deadline, at the head of its slot's list. */
    method File(index: nat, deadline: nat)
      requires Structure() && index in loose
      requires DeadlineFits(cursor, deadline) && deadline <= MAX_TICK
      modifies `entries, `heads, `occupied, `lists, `loose, `nextEvent
      ensures Structure() && loose == old(loose) - {index}
      ensures |entries| == |old(entries)| && Relinked(old(entries), entries)
      ensures entries[index].deadline == deadline && entries[index].token == old(entries[index].token)
      ensures entries[index].generation == old(entries[index].generation)
      ensures entries[index].level == PlaceLevel(cursor, deadline)
      ensures entries[index].slot == PlaceSlot(cursor, deadline)
      ensures forall x :: 0 <= x < |entries| && x != index ==>
                entries[x] == old(entries[x]).(prev := entries[x].prev)
      ensures nextEvent == Min(old(nextEvent), SlotWakeup(cursor, entries[index].level, entries[index].slot))
    {
      hide Wired, Occupancy, Slab, Issued, DeadlinesInRange, Relinked, SlotWakeup, FileEntries, Placed, Width;
      PlacementIsPlaced(cursor, deadline);
      var level, slot := PlaceLevel(cursor, deadline), PlaceSlot(cursor, deadline);
      hide PlaceLevel, PlaceSlot;
      FileReady(entries, heads, lists, loose, index, Bucket(level, slot));
      var head := heads[Bucket(level, slot)];
      FileKeepsWired(entries, heads, lists, loose, index, deadline, level, slot);
      FileRelinks(entries, head, index, deadline, level, slot);
      OccupancyShape(occupied, lists);
      FileKeepsOccupancy(occupied, lists, level, slot, index);
      RelinkedKeeps(entries, FileEntries(entries, head, index, deadline, level, slot),
                    free, freeList, live, retired, wheelId, issued);
      LinkIn(index, deadline, head, level, slot);
      heads := heads[Bucket(level, slot) := index];
      occupied := occupied[level := occupied[level] + {slot}];
      lists := lists[Bucket(level, slot) := [index] + lists[Bucket(level, slot)]];
      loose := loose - {index};

      var wakeup := SlotWakeup(cursor, level, slot);
      if wakeup < nextEvent {
        nextEvent := wakeup;
      }
    }
  
    /** Take a filed entry off its slot's list. */
    method Unlink(index: nat)
      requires Structure() && Live(entries, index) && index !in loose
      modifies `entries, `heads, `occupied, `lists, `loose
      ensures Structure() && loose == old(loose) + {index}
      ensures |entries| == |old(entries)| && Relinked(old(entries), entries)
      ensures entries[index] == old(entries[index])
      ensures forall x :: 0 <= x < |entries| ==>
                entries[x] == old(entries[x]).(next := entries[x].next, prev := entries[x].prev)
    {
      hide Wired, Occupancy, Slab, Issued, DeadlinesInRange, Relinked, UnlinkEntries, Cut;
      ghost var q, k := UnlinkReady(entries, heads, lists, loose, index);
      ghost var heads' := if k == 0 then heads[q := entries[index].next] else heads;
      ghost var before := entries;
      UnlinkKeepsWired(entries, heads, lists, loose, q, k, heads', lists[q := Cut(lists[q], k)]);
      UnlinkRelinks(entries, index);
      OccupancyShape(occupied, lists);
      UnlinkKeepsOccupancy(occupied, lists, entries[index].level, entries[index].slot, k);
      RelinkedKeeps(entries, UnlinkEntries(entries, index), free, freeList, live, retired, wheelId, issued);

      var level, slot := entries[index].level, entries[index].slot;
      if entries[index].prev == NIL {
        heads := heads[Bucket(level, slot) := entries[index].next];
        if entries[index].next == NIL {
          occupied := occupied[level := occupied[level] - {slot}];
        }
      }
      LinkOver(index);
      lists := lists[q := Cut(lists[q], k)];
      loose := loose + {index};
    }

    /** Point an entry's neighbours at each other. */
    method LinkOver(index: nat)
      requires index < |entries|
      requires entries[index].prev != NIL ==> entries[index].prev < |entries|
      requires entries[index].next != NIL ==> entries[index].next < |entries|
      modifies `entries
      ensures entries == UnlinkEntries(old(entries), index)
    {
      var prev, next := entries[index].prev, entries[index].next;
      if prev != NIL {
        entries := entries[prev := entries[prev].(next := next)];
      }
      if next != NIL {
        entries := entries[next := entries[next].(prev := prev)];
      }
    }

    /** Detach a whole slot list, returning its head. */
    method Take(level: nat, slot: nat) returns (head: nat, ghost xs: seq<nat>)
      requires Structure() && level < LEVELS && slot < SLOTS
      modifies `heads, `occupied, `lists, `loose
      ensures Structure() && loose == old(loose) + Members(xs)
      ensures Linked(entries, head, xs)
      ensures forall x :: x in xs <==>
                Live(entries, x) && x !in old(loose) && entries[x].level == level && entries[x].slot == slot
    {
      hide Wired, Occupancy, Slab, Issued, DeadlinesInRange;
      xs := TakeReady(entries, heads, lists, loose, level, slot);
      TakeKeepsWired(entries, heads, lists, loose, Bucket(level, slot));
      OccupancyShape(occupied, lists);
      RemoveKeepsOccupancy(occupied, lists, level, slot, []);

      head := heads[Bucket(level, slot)];
      heads := heads[Bucket(level, slot) := NIL];
      occupied := occupied[level := occupied[level] - {slot}];
      lists := lists[Bucket(level, slot) := []];
      loose := loose + Members(xs);
    }

    /** Take a position off the free list for a new timer, under a generation it
        has never had. */
    method Allocate(deadline: nat, token: T) returns (index: nat)
      requires Structure() && free != NIL && deadline <= MAX_TICK
      modifies `entries, `free, `live, `freeList, `loose, `issued
      ensures Structure() && loose == old(loose) + {index}
      ensures index < |entries| == |old(entries)| && !Live(old(entries), index)
      ensures entries == old(entries)[index := entries[index]]
      ensures entries[index].deadline == deadline && entries[index].token == Some(token)
      ensures issued == old(issued) + {TimerId(wheelId, entries[index].generation, index)}
      ensures TimerId(wheelId, entries[index].generation, index) !in old(issued)
    {
      hide Wired, Occupancy, Slab;
      FreeHead(entries, free, freeList, live, retired);
      index := free;
      var e := entries[index].(deadline := deadline, generation := entries[index].generation + 1,
                               token := Some(token), next := NIL, prev := NIL);
      AllocateKeepsSlab(entries, free, freeList, live, retired, e);
      LooseAdd(entries, heads, lists, loose, index, e);
      free := entries[index].next;
      entries := entries[index := e];
      live := live + 1;
      freeList := freeList[1..];
      loose := loose + {index};
      issued := issued + {TimerId(wheelId, e.generation, index)};
    }

    /** Take a loose entry's token and return its position to the free list, or
        retire the position when its generation is exhausted. */
    method Release(index: nat) returns (token: T)
      requires Structure() && index in loose && Live(entries, index)
      modifies `entries, `free, `live, `retired, `freeList, `loose
      ensures Structure() && loose == old(loose) - {index}
      ensures |entries| == |old(entries)| && Some(token) == old(entries[index].token)
      ensures entries[index].token == None && entries[index].generation == old(entries[index].generation)
      ensures entries == old(entries)[index := entries[index]]
    {
      hide Wired, Occupancy, Slab;
      token := entries[index].token.value;
      var e := entries[index].(token := None, prev := NIL, slot := 0);
      if e.generation == U64_MAX {
        e := e.(next := NIL, level := RETIRED_LEVEL);
      } else {
        e := e.(next := free, level := FREE_LEVEL);
      }
      GenerationBound(entries, free, freeList, live, retired, index);
      ReleaseKeepsSlab(entries, free, freeList, live, retired, index, e);
      LooseAdd(entries, heads, lists, loose, index, e);
      entries := entries[index := e];
      live := live - 1;
      if e.generation == U64_MAX {
        retired := retired + 1;
      } else {
        free := index;
        freeList := [index] + freeList;
      }
      loose := loose - {index};
    }

    method Refresh()
      requires Structure() && loose == {} && AllPlaced(entries, cursor, {})
      modifies `nextEvent
      ensures Valid()
    {
      hide Wired, Occupancy, Slab, Issued, DeadlinesInRange, AllPlaced, LeastWakeup, NextExact;
      OccupancyShape(occupied, lists);
      nextEvent := ComputeNextEvent(cursor, occupied);
      LeastWakeupIsNext(entries, heads, lists, occupied, cursor, nextEvent);
    }
  
    /** Break up the cursor's slot of one level, refiling its timers. */
    method CascadeSlot(level: nat)
      requires Structure() && loose == {} && 0 < level < LEVELS
      requires AllSettled(entries, cursor, level + 1, {})
      modifies `entries, `heads, `occupied, `lists, `loose, `nextEvent
      ensures Structure() && loose == {}
      ensures AllSettled(entries, cursor, level, {})
      ensures Descended(old(entries), entries)
    {
      hide Placed, Arrived, Here, PlaceLevel, PlaceSlot, DeadlineFits, SlotWakeup,
           Wired, Occupancy, Slab, Issued, Linked;
      var index; ghost var rest;
      index, rest := Take(level, Here(cursor, level));
      CascadeStart(entries, cursor, level, rest);
      while index != NIL
        invariant Structure() && loose == Members(rest)
        invariant Linked(entries, index, rest)
        invariant AllSettled(entries, cursor, level, loose)
        invariant forall x :: x in rest ==> Live(entries, x) && AwaitsRefile(entries[x], cursor, level)
        invariant Descended(old(entries), entries)
        decreases |rest|
      {
        LinkedNext(entries, index, rest);
        var next := entries[index].next;
        var deadline := entries[index].deadline;
        RefileDescends(cursor, deadline, level, Here(cursor, level));
        PlacementIsPlaced(cursor, deadline);
        ghost var before := entries;
        File(index, deadline);
        LinkedSurvivesFile(before, entries, next, rest[1..], index);
        rest := rest[1..];
        index := next;
      }
      LinkedEnd(entries, rest);
    }
  
    /** Break up every coarse slot the cursor has reached, coarsest first. */
    method Cascade()
      requires Structure() && loose == {} && AllSettled(entries, cursor, LEVELS, {})
      modifies `entries, `heads, `occupied, `lists, `loose, `nextEvent
      ensures Structure() && loose == {}
      ensures AllPlaced(entries, cursor, {})
      ensures Descended(old(entries), entries)
    {
      hide Placed, Arrived, Wired, Occupancy, Slab, Issued, Here;
      for level := LEVELS downto 1
        invariant Structure() && loose == {}
        invariant AllSettled(entries, cursor, level, {})
        invariant Descended(old(entries), entries)
      {
        OccupancyShape(occupied, lists);
        if Here(cursor, level) in occupied[level] {
          ghost var before := entries;
          CascadeSlot(level);
          DescendedTwice(old(entries), before, entries);
        } else {
          NoneAwaiting(entries, heads, lists, occupied, cursor, level);
        }
      }
      forall x | Live(entries, x) ensures PlacedAt(entries[x], cursor) {
        ArrivedIsCoarse(entries[x], cursor);
      }
    }

    /** Empty the cursor's level-0 slot, emitting its tokens. */
    method Fire() returns (out: seq<T>, ghost burst: seq<nat>)
      requires Structure() && loose == {} && AllPlaced(entries, cursor, {})
      modifies `entries, `free, `live, `retired, `freeList, `heads, `occupied, `lists, `loose
      ensures Structure() && loose == {} && AllPlaced(entries, cursor, {})
      ensures Distinct(burst) && |burst| == |out|
      ensures forall i :: 0 <= i < |burst| ==> Emits(old(entries), burst[i], out[i])
      ensures forall x :: Live(old(entries), x) ==> (x in burst <==> old(entries)[x].deadline <= cursor)
      ensures Fired(old(entries), entries, burst)
    {
      hide Placed, Wired, Occupancy, Slab, Issued, Linked, Distinct, DeadlinesInRange;
      forall x | Live(entries, x)
        ensures entries[x].level == 0 && entries[x].slot == cursor % SLOTS <==> entries[x].deadline <= cursor
      {
        assert PlacedAt(entries[x], cursor);
        FiringSlotIsDue(cursor, entries[x].deadline, entries[x].level, entries[x].slot);
      }
      var index; ghost var rest;
      index, rest := Take(0, cursor % SLOTS);
      out, burst := [], [];
      ghost var xs := rest;
      LinkedDistinct(entries, index, rest);
      while index != NIL
        invariant Structure() && loose == Members(rest)
        invariant Linked(entries, index, rest)
        invariant xs == burst + rest && |burst| == |out|
        invariant forall i :: 0 <= i < |burst| ==> Emits(old(entries), burst[i], out[i])
        invariant Fired(old(entries), entries, burst)
        decreases |rest|
      {
        LinkedNext(entries, index, rest);
        var next := entries[index].next;
        ghost var before := entries;
        NextFromRest(xs, burst, rest);
        var token := Release(index);
        LinkedUpdate(before, next, rest[1..], index, entries[index]);
        FiredMore(old(entries), before, entries, burst, index);
        out := out + [token];
        burst := burst + [index];
        rest := rest[1..];
        index := next;
      }
      LinkedEnd(entries, rest);
      assert burst == xs;
    }
  
    /** Move the cursor to the next event and process it: break up the coarse
        slots it reaches, fire the timers that are due, and rescan. */
    method RunEvent() returns (out: seq<T>, ghost burst: seq<TimerId>)
      requires Valid() && nextEvent < U64_MAX && nextEvent <= MAX_TICK
      modifies this
      ensures Valid() && issued == old(issued)
      ensures old(cursor) <= cursor == old(nextEvent)
      ensures Timers() == Minus(old(Timers()), burst)
      ensures BurstAt(old(Timers()), old(cursor), cursor, burst, out)
      ensures Weight(entries) < Weight(old(entries))
    {
      hide Wired, Occupancy, Slab, Issued, Placed, Arrived, Due, Relinked, Weight, TimersOf, IdsOf, Distinct, Minus;
      ghost var es, from := entries, cursor;
      ghost var x :| Live(es, x) && nextEvent == DueOf(es[x], cursor);
      forall y | Live(es, y)
        ensures cursor <= nextEvent && Settled(es[y], nextEvent, LEVELS)
        ensures es[y].deadline <= nextEvent ==> Max(es[y].deadline, cursor) == nextEvent
      {
        LandOnEvent(es, cursor, nextEvent, y);
      }
      LandOnEvent(es, cursor, nextEvent, x);
      cursor := nextEvent;
      Cascade();
      ghost var es1 := entries;
      ghost var positions;
      out, positions := Fire();
      burst := IdsOf(es1, wheelId, positions);
      EventFacts(es, es1, entries, wheelId, from, cursor, positions, out, x);
      Refresh();
    }
  
    /** Advance to `target`, emitting the tokens that fall due. `events` counts the
        slot events visited on the way. */
    method AdvanceTo(target: nat) returns (out: seq<T>, ghost fired: seq<TimerId>, ghost events: nat)
      requires Valid()
      modifies this
      ensures Valid() && issued == old(issued)
      ensures target > 0xFFFF_FFFF_FFFF_FFFE || target < old(cursor) ==>
                out == [] && cursor == old(cursor) && Timers() == old(Timers())
      ensures old(cursor) <= target <= 0xFFFF_FFFF_FFFF_FFFE ==>
                && cursor == target
                && Emitted(old(Timers()), old(cursor), target, fired, out)
                && Timers() == Minus(old(Timers()), fired)
      ensures events <= 8 * old(live)
    {
      hide Wired, Occupancy, Slab, Issued, AllPlaced, NextExact, Weight, TimersOf, Minus, Underway, Emitted,
           BurstAt, DeadlinesInRange;
      out, fired, events := [], [], 0;
      if target > MAX_TICK || target < cursor {
        return;
      }
      if target < nextEvent {
        UnderwayStart(Timers(), cursor);
        SkipTo(entries, cursor, nextEvent, target);
        TimersAfter(entries, wheelId, target);
        UnderwayEnds(Timers(), cursor, cursor, [], [], target);
        cursor := target;
        return;
      }
      ghost var timers, from := Timers(), cursor;
      UnderwayStart(timers, from);
      FiledLevels(entries, heads, lists);
      WeightBounded(entries);
      LiveCount(entries, free, freeList, live, retired);
      while nextEvent != U64_MAX && nextEvent <= target
        invariant Valid() && issued == old(issued)
        invariant cursor <= target
        invariant Timers() == Minus(timers, fired)
        invariant Underway(timers, from, cursor, fired, out)
        invariant events + Weight(entries) <= LEVELS * old(live)
        decreases Weight(entries)
      {
        ghost var at := cursor;
        var more; ghost var burst;
        NextInRange(entries, cursor, nextEvent);
        more, burst := RunEvent();
        UnderwayStep(timers, from, at, fired, out, cursor, burst, more);
        out, fired, events := out + more, fired + burst, events + 1;
      }
      SkipTo(entries, cursor, nextEvent, target);
      TimersAfter(entries, wheelId, target);
      UnderwayEnds(timers, from, cursor, fired, out, target);
      cursor := target;
    }

    /** Schedule `token` at an absolute tick. */
    method TryInsertAt(deadline: nat, token: T) returns (r: Result<TimerId, InsertError>)
      requires Valid()
      modifies this
      ensures Valid() && cursor == old(cursor)
      ensures r == Err(TimeOutOfRange) <==> deadline > 0xFFFF_FFFF_FFFF_FFFE
      ensures r == Err(DeadlineTooFar) <==>
        old(cursor) + 0x1_0000_0000_0000 <= deadline <= 0xFFFF_FFFF_FFFF_FFFE
      ensures r == Err(Full) <==>
        && deadline <= 0xFFFF_FFFF_FFFF_FFFE && deadline < old(cursor) + 0x1_0000_0000_0000
        && old(live) + old(retired) == |old(entries)|
      ensures r.Err? ==> Timers() == old(Timers()) && issued == old(issued)
      ensures r.Ok? ==> r.value !in old(issued) && issued == old(issued) + {r.value}
      ensures r.Ok? ==> Timers() == old(Timers())[r.value := Timer(deadline, token)]
    {
      hide Wired, Occupancy, Slab, Issued, AllPlaced, NextExact, DeadlinesInRange, Placed, Due, SlotWakeup,
           PlaceLevel, PlaceSlot, TimersOf, Relinked;
      if deadline > MAX_TICK {
        return Err(TimeOutOfRange);
      }
      if !DeadlineFits(cursor, deadline) {
        return Err(DeadlineTooFar);
      }
      FullWhen(entries, free, freeList, live, retired);
      if free == NIL {
        return Err(Full);
      }
      ghost var es, next := entries, nextEvent;
      var index := Allocate(deadline, token);
      File(index, deadline);
      PlacementIsPlaced(cursor, deadline);
      PlacedWakeup(cursor, deadline, entries[index].level, entries[index].slot);
      OthersStayPlaced(es, entries, index, cursor);
      NextAfterFiling(es, entries, index, cursor, next, nextEvent);
      TimersAfterWrite(es, entries, index, wheelId);
      TimersMembership(es, wheelId, TimerId(wheelId, es[index].generation, index));
      return Ok(TimerId(wheelId, entries[index].generation, index));
    }
  
    /** The slab position a handle names, if the timer it was issued for is live. */
    function LiveIndex(id: TimerId): (r: Option<nat>)
      reads this
      ensures r == if id in Timers() then Some(id.index) else None
    {
      TimersMembership(entries, wheelId, id);
      if id.wheel != wheelId || id.index >= |entries| then None
      else if entries[id.index].generation == id.generation && entries[id.index].token.Some? then Some(id.index)
      else None
    }

    /** Cancel a timer. A handle that names no live timer changes nothing. */
    method Cancel(id: TimerId) returns (r: Option<T>)
      requires Valid()
      modifies this
      ensures Valid() && cursor == old(cursor) && issued == old(issued)
      ensures id in old(Timers()) ==> r == Some(old(Timers())[id].token) && Timers() == old(Timers()) - {id}
      ensures id !in old(Timers()) ==> r == None && Timers() == old(Timers()) && nextEvent == old(nextEvent)
    {
      hide Wired, Occupancy, Slab, Issued, AllPlaced, NextExact, DeadlinesInRange, Placed, Due, SlotWakeup,
           TimersOf, Relinked, EarliestElsewhere;
      var found := LiveIndex(id);
      if found == None {
        return None;
      }
      var index := found.value;
      TimersMembership(entries, wheelId, id);
      var level, slot := entries[index].level, entries[index].slot;
      var singleton := entries[index].prev == NIL && entries[index].next == NIL;
      var removedEarliest := singleton && SlotWakeup(cursor, level, slot) == nextEvent;
      ghost var es := entries;
      if !removedEarliest {
        EarliestSurvives(entries, heads, lists, occupied, cursor, nextEvent, index);
      }

      Unlink(index);
      var token := Release(index);
      OthersStayPlaced(es, entries, index, cursor);
      TimersAfterWrite(es, entries, index, wheelId);
      if removedEarliest {
        Refresh();
      } else {
        NextAfterRemoval(es, entries, index, cursor, nextEvent);
      }
      return Some(token);
    }

    /** Move a live timer to a new tick under the same handle. */
    method RescheduleAt(id: TimerId, deadline: nat) returns (r: Result<(), RescheduleError>)
      requires Valid()
      modifies this
      ensures Valid() && cursor == old(cursor) && issued == old(issued)
      ensures r == Err(RescheduleOutOfRange) <==> deadline > 0xFFFF_FFFF_FFFF_FFFE
      ensures r == Err(RescheduleTooFar) <==>
        old(cursor) + 0x1_0000_0000_0000 <= deadline <= 0xFFFF_FFFF_FFFF_FFFE
      ensures r == Err(StaleId) <==>
        && deadline <= 0xFFFF_FFFF_FFFF_FFFE && deadline < old(cursor) + 0x1_0000_0000_0000
        && id !in old(Timers())
      ensures r.Err? ==> Timers() == old(Timers()) && nextEvent == old(nextEvent)
      ensures r.Ok? ==> Timers() == old(Timers())[id := Timer(deadline, old(Timers())[id].token)]
    {
      hide Wired, Occupancy, Slab, Issued, AllPlaced, NextExact, DeadlinesInRange, Placed, Due, SlotWakeup,
           PlaceLevel, PlaceSlot, TimersOf, Relinked, EarliestElsewhere;
      if deadline > MAX_TICK {
        return Err(RescheduleOutOfRange);
      }
      if !DeadlineFits(cursor, deadline) {
        return Err(RescheduleTooFar);
      }
      var found := LiveIndex(id);
      if found == None {
        return Err(StaleId);
      }
      var index := found.value;
      TimersMembership(entries, wheelId, id);
      var level, slot := entries[index].level, entries[index].slot;
      var singleton := entries[index].prev == NIL && entries[index].next == NIL;
      var removedEarliest := singleton && SlotWakeup(cursor, level, slot) == nextEvent;
      ghost var es, next := entries, nextEvent;
      if !removedEarliest {
        EarliestSurvives(entries, heads, lists, occupied, cursor, nextEvent, index);
      }

      Unlink(index);
      File(index, deadline);
      PlacementIsPlaced(cursor, deadline);
      PlacedWakeup(cursor, deadline, entries[index].level, entries[index].slot);
      OthersStayPlaced(es, entries, index, cursor);
      TimersAfterWrite(es, entries, index, wheelId);
      if removedEarliest {
        Refresh();
      } else {
        NextAfterFiling(es, entries, index, cursor, next, nextEvent);
      }
      return Ok(());
    }

    /** The cached event is exactly the least wakeup of any occupied slot. It is
        never behind the cursor, and never later than a live timer's own tick. */
    lemma NextEventIsExact()
      requires Valid()
      ensures LeastWakeup(cursor, occupied, LEVELS, nextEvent)
      ensures Timers() != map[] ==> cursor <= nextEvent <= MAX_TICK
      ensures Timers() == map[] ==> nextEvent == U64_MAX
      ensures forall id :: id in Timers() ==> nextEvent <= Max(Timers()[id].deadline, cursor)
    {
      hide Wired, Occupancy, Slab, Issued, DeadlinesInRange, Placed, Due, SlotWakeup, LeastWakeup, TimersOf;
      LeastWakeupIsNext(entries, heads, lists, occupied, cursor, nextEvent);
      forall id | id in Timers()
        ensures cursor <= nextEvent <= Max(Timers()[id].deadline, cursor) <= MAX_TICK
      {
        TimersMembership(entries, wheelId, id);
        SlotOfTimer(entries, heads, lists, occupied, cursor, id.index);
        var w :| Live(entries, w) && nextEvent == DueOf(entries[w], cursor);
        SlotOfTimer(entries, heads, lists, occupied, cursor, w);
      }
      if nextEvent < U64_MAX {
        var w :| Live(entries, w) && nextEvent == DueOf(entries[w], cursor);
        TimersMembership(entries, wheelId, TimerId(wheelId, entries[w].generation, w));
      }
    }

    /** Every live handle was issued, so a handle that has died never comes back:
        an insertion only ever adds one that was not issued before. */
    lemma LiveHandlesWereIssued()
      requires Valid()
      ensures forall id :: id in Timers() ==> id in issued
      ensures |Timers()| == live
    {
      hide Wired, Occupancy, Placed, Due, Linked;
      forall id | id in Timers() ensures id in issued {
        TimersMembership(entries, wheelId, id);
      }
      CountTimers(entries, wheelId);
    }

    /** An empty wheel at `now`, every position on the free list. */
    constructor (capacity: nat, now: nat, wheelId: nat)
      requires capacity <= NIL && now <= MAX_TICK
      ensures Valid() && Timers() == map[] && issued == {} && cursor == now && |entries| == capacity
      ensures this.wheelId == wheelId
    {
      this.wheelId := wheelId;
      entries := FreshEntries(capacity);
      free := if capacity == 0 then NIL else 0;
      live, retired := 0, 0;
      heads := Repeat(NIL, BUCKETS);
      occupied := Repeat({}, LEVELS);
      cursor, nextEvent := now, U64_MAX;
      lists := Repeat([], BUCKETS);
      freeList := Positions(capacity);
      loose, issued := {}, {};
      new;
      FreshIsValid<T>(capacity, wheelId);
    }
  }

  // ---- Handles and durations ------------------------------------------------------------

  const U32: nat := 0x1_0000_0000
  const U64: nat := 0x1_0000_0000_0000_0000

  /** The 128-bit encoding of a handle: wheel, generation, and index plus one. */
  function Raw(id: TimerId): nat {
    id.wheel * (U64 * U32) + id.generation * U32 + (id.index + 1)
  }

  /** Decode an encoding no wheel could have produced to nothing. */
  function FromRaw(raw: nat): Option<TimerId> {
    var wheel := raw / (U64 * U32);
    var generation := raw / U32 % U64;
    var encodedIndex := raw % U32;
    if wheel == 0 || generation == 0 || encodedIndex == 0 then None
    else Some(TimerId(wheel, generation, encodedIndex - 1))
  }

  predicate WellFormedId(id: TimerId) {
    0 < id.wheel < U32 && 0 < id.generation < U64 && id.index < NIL
  }

  /** Decoding inverts encoding, and whatever decodes encodes back to the same
      word, so an encoding names one handle. */
  lemma RawRoundTrip(id: TimerId, raw: nat)
    requires raw < U32 * U64 * U32
    ensures WellFormedId(id) ==> FromRaw(Raw(id)) == Some(id)
    ensures FromRaw(raw).Some? ==> WellFormedId(FromRaw(raw).value) && Raw(FromRaw(raw).value) == raw
  {
    hide *;
    if WellFormedId(id) { EncodeThenDecode(id); }
    DecodeThenEncode(raw);
  }

  lemma EncodeThenDecode(id: TimerId)
    requires WellFormedId(id)
    ensures FromRaw(Raw(id)) == Some(id)
  {
    var low := id.generation * U32 + (id.index + 1);
    DivUnique(Raw(id), id.wheel, low, U64 * U32);
    DivUnique(Raw(id), id.wheel * U64 + id.generation, id.index + 1, U32);
    DivUnique(id.wheel * U64 + id.generation, id.wheel, id.generation, U64);
  }

  lemma DecodeThenEncode(raw: nat)
    requires raw < U32 * U64 * U32
    ensures FromRaw(raw).Some? ==> WellFormedId(FromRaw(raw).value) && Raw(FromRaw(raw).value) == raw
  {
  }

  /** Nanoseconds to ticks of `tick` nanoseconds each, rounding down: an
      observation of the current time. */
  function TickFloor(nanos: nat, tick: nat): Option<nat>
    requires tick > 0
  {
    if nanos / tick <= MAX_TICK then Some(nanos / tick) else None
  }

  /** Nanoseconds to ticks, rounding up: a deadline. */
  function TickCeil(nanos: nat, tick: nat): Option<nat>
    requires tick > 0
  {
    var ticks := nanos / tick + (if nanos % tick != 0 then 1 else 0);
    if ticks <= MAX_TICK then Some(ticks) else None
  }

  /** Both conversions are exact: the tick a time falls in, and the first tick at or
      after it, whenever that tick is one the wheel can hold. */
  lemma TicksAreExact(nanos: nat, tick: nat)
    requires tick > 0
    ensures TickFloor(nanos, tick).Some? <==> nanos < 0xFFFF_FFFF_FFFF_FFFF * tick
    ensures TickFloor(nanos, tick).Some? ==>
      TickFloor(nanos, tick).value * tick <= nanos < (TickFloor(nanos, tick).value + 1) * tick
    ensures TickCeil(nanos, tick).Some? <==> nanos <= 0xFFFF_FFFF_FFFF_FFFE * tick
    ensures TickCeil(nanos, tick).Some? ==>
      && nanos <= TickCeil(nanos, tick).value * tick
      && (nanos > 0 ==> (TickCeil(nanos, tick).value - 1) * tick < nanos)
  {
    var n, top := nanos / tick, 0xFFFF_FFFF_FFFF_FFFE;
    QuotientRemainder(nanos, tick);
    Distribute(n, 1, tick);
    Distribute(top, 1, tick);
    if n <= top { MulMonotone(tick, n, top); } else { MulMonotone(tick, top + 1, n); }
    if n < top { MulMonotone(tick, n + 1, top); }
  }

  /** With deadlines rounded up and observations rounded down, a timer is never
      seen due before its deadline, and is seen due less than one tick after. */
  lemma NeverEarlyUnderATickLate(deadline: nat, now: nat, tick: nat)
    requires tick > 0 && TickCeil(deadline, tick).Some? && TickFloor(now, tick).Some?
    ensures TickCeil(deadline, tick).value <= TickFloor(now, tick).value ==> deadline <= now
    ensures deadline + tick <= now + 1 ==> TickCeil(deadline, tick).value <= TickFloor(now, tick).value
  {
    var d, n := deadline / tick, now / tick;
    var ceil := TickCeil(deadline, tick).value;
    QuotientRemainder(deadline, tick);
    QuotientRemainder(now, tick);
    Distribute(d, 1, tick);
    Distribute(n, 1, tick);
    if ceil <= n {
      MulMonotone(tick, ceil, n);
    }
    if deadline + tick <= now + 1 {
      MulCancel(tick, ceil, n + 1);
    }
  }
}
