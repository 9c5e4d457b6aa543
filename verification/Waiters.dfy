/** The queue of senders parked on a full mailbox: recycled slots, generations that
    tell one occupant from the next, and an order queue with tombstones. Every
    operation runs under one lock. */
module WaitList {
  import opened Options

  datatype Ticket = Ticket(slot: nat, generation: nat)

  datatype Slot<+W> = Slot(waker: Option<W>, generation: nat)

  /** A live registration. */
  datatype Waiting<+W> = Waiting(ticket: Ticket, waker: W)

  predicate Live<W>(slots: seq<Slot<W>>, t: Ticket) {
    t.slot < |slots| && slots[t.slot].generation == t.generation && slots[t.slot].waker.Some?
  }

  /** The live registrations, in the order they arrived. */
  function Queue<W>(slots: seq<Slot<W>>, order: seq<Ticket>): seq<Waiting<W>> {
    if order == [] then []
    else if Live(slots, order[0]) then
      [Waiting(order[0], slots[order[0].slot].waker.value)] + Queue(slots, order[1..])
    else Queue(slots, order[1..])
  }

  /** Registrations are numbered as they come. */
  ghost predicate Ascending(order: seq<Ticket>) {
    forall i, j :: 0 <= i < j < |order| ==> order[i].generation < order[j].generation
  }

  ghost predicate OrderOk<W>(slots: seq<Slot<W>>, order: seq<Ticket>, next: nat) {
    && (forall i :: 0 <= i < |order| ==> order[i].slot < |slots| && order[i].generation < next)
    && Ascending(order)
    && (forall i :: 0 <= i < |order| ==> order[i].generation <= slots[order[i].slot].generation)
    && (forall i :: 0 <= i < |order| && order[i].generation == slots[order[i].slot].generation ==>
          slots[order[i].slot].waker.Some?)
  }

  ghost predicate SlotsOk<W>(slots: seq<Slot<W>>, free: seq<nat>, order: seq<Ticket>, next: nat) {
    && (forall s :: 0 <= s < |slots| && slots[s].waker.Some? ==>
          slots[s].generation < next && Ticket(s, slots[s].generation) in order)
    && (forall s :: 0 <= s < |slots| && slots[s].waker.None? ==> slots[s].generation <= next && s in free)
    && (forall s :: s in free ==> s < |slots| && slots[s].waker.None?)
    && (forall i, j :: 0 <= i < j < |free| ==> free[i] != free[j])
  }

  ghost predicate ListOk<W>(slots: seq<Slot<W>>, free: seq<nat>, order: seq<Ticket>, next: nat) {
    && OrderOk(slots, order, next) && SlotsOk(slots, free, order, next)
    && |Queue(slots, order)| + |free| == |slots|
  }

  /** Tombstones are bounded by the storage, whatever was cancelled. */
  predicate OrderBounded<W>(slots: seq<Slot<W>>, order: seq<Ticket>) {
    |order| <= 8 || |order| <= 2 * |slots|
  }

  /** The guard at which the order is compacted: it is long, and not short against
      the free slots. */
  predicate Compacts(length: nat, free: nat) {
    length > 8 && length >= 2 * free
  }

  /** More of the order's entries are over than wait. */
  predicate TombstonesPrevail<W>(slots: seq<Slot<W>>, order: seq<Ticket>) {
    |order| - |Queue(slots, order)| > |Queue(slots, order)|
  }

  /** Just after an operation reaches the guard, tombstones prevail exactly when they
      did before it and the guard let them be. */
  lemma PrevailAfterGuard<W>(slots: seq<Slot<W>>, before: seq<Ticket>, after: seq<Ticket>, free: nat)
    requires after == if Compacts(|before|, free) then Retained(slots, before) else before
    ensures TombstonesPrevail(slots, after) <==> |before| > 2 * |Queue(slots, before)| && !Compacts(|before|, free)
  {
  }

  // ---- The live queue under the list's writes -------------------------------------------------

  /** What the live queue depends on. */
  lemma {:induction false} QueueFrame<W>(slots: seq<Slot<W>>, slots': seq<Slot<W>>, order: seq<Ticket>)
    requires forall i :: 0 <= i < |order| ==> (Live(slots, order[i]) <==> Live(slots', order[i]))
    requires forall i :: 0 <= i < |order| ==> Live(slots, order[i]) ==>
      order[i].slot < |slots'| && slots'[order[i].slot].waker == slots[order[i].slot].waker
    ensures Queue(slots', order) == Queue(slots, order)
  {
    if order != [] {
      assert Live(slots, order[0]) <==> Live(slots', order[0]);
      QueueFrame(slots, slots', order[1..]);
    }
  }

  lemma {:induction false} QueueAppend<W>(slots: seq<Slot<W>>, order: seq<Ticket>, t: Ticket)
    requires Live(slots, t)
    ensures Queue(slots, order + [t]) == Queue(slots, order) + [Waiting(t, slots[t.slot].waker.value)]
  {
    if order == [] {
      assert order + [t] == [t];
      assert Queue(slots, [t]) == [Waiting(t, slots[t.slot].waker.value)] + Queue(slots, []);
    } else {
      assert (order + [t])[1..] == order[1..] + [t];
      QueueAppend(slots, order[1..], t);
    }
  }

  /** Everything in the live queue is live, and listed in the order. */
  lemma {:induction false} QueueIsLive<W>(slots: seq<Slot<W>>, order: seq<Ticket>, i: nat)
    requires i < |Queue(slots, order)|
    ensures var q := Queue(slots, order)[i];
      Live(slots, q.ticket) && q.ticket in order && q.waker == slots[q.ticket.slot].waker.value
  {
    if Live(slots, order[0]) {
      if i > 0 { QueueIsLive(slots, order[1..], i - 1); }
    } else {
      QueueIsLive(slots, order[1..], i);
    }
  }

  /** Where a live ticket of the order stands in the live queue. */
  lemma {:induction false} LiveIsQueued<W>(slots: seq<Slot<W>>, order: seq<Ticket>, t: Ticket) returns (i: nat)
    requires t in order && Live(slots, t)
    ensures i < |Queue(slots, order)| && Queue(slots, order)[i] == Waiting(t, slots[t.slot].waker.value)
  {
    if order[0] == t {
      i := 0;
    } else {
      i := LiveIsQueued(slots, order[1..], t);
      if Live(slots, order[0]) { i := i + 1; }
    }
  }

  function WithoutTicket<W>(q: seq<Waiting<W>>, t: Ticket): seq<Waiting<W>> {
    if q == [] then [] else if q[0].ticket == t then WithoutTicket(q[1..], t) else [q[0]] + WithoutTicket(q[1..], t)
  }

  function Refreshed<W>(q: seq<Waiting<W>>, t: Ticket, waker: W): (r: seq<Waiting<W>>)
    ensures |r| == |q|
    ensures forall i :: 0 <= i < |q| ==> r[i] == if q[i].ticket == t then Waiting(t, waker) else q[i]
  {
    seq(|q|, i requires 0 <= i < |q| => if q[i].ticket == t then Waiting(t, waker) else q[i])
  }

  /** Ending one registration takes it, and only it, out of the live queue. */
  lemma {:induction false} QueueRetire<W>(slots: seq<Slot<W>>, order: seq<Ticket>, t: Ticket, g: nat)
    requires Live(slots, t) && g > t.generation
    requires forall i :: 0 <= i < |order| ==> order[i].generation <= t.generation || order[i].slot != t.slot
    ensures Queue(slots[t.slot := Slot(None, g)], order) == WithoutTicket(Queue(slots, order), t)
  {
    if order != [] {
      QueueRetire(slots, order[1..], t, g);
    }
  }

  lemma {:induction false} TicketAbsent<W>(q: seq<Waiting<W>>, t: Ticket)
    requires forall i :: 0 <= i < |q| ==> q[i].ticket != t
    ensures WithoutTicket(q, t) == q
  {
    if q != [] { TicketAbsent(q[1..], t); }
  }

  lemma {:induction false} TicketOnce<W>(q: seq<Waiting<W>>, t: Ticket, i: nat)
    requires i < |q| && q[i].ticket == t
    requires forall j :: 0 <= j < |q| && j != i ==> q[j].ticket != t
    ensures WithoutTicket(q, t) == q[..i] + q[i + 1..]
  {
    if i == 0 {
      assert forall j :: 0 <= j < |q[1..]| ==> q[1..][j] == q[j + 1];
      TicketAbsent(q[1..], t);
    } else {
      assert forall j :: 0 <= j < |q[1..]| ==> q[1..][j] == q[j + 1];
      TicketOnce(q[1..], t, i - 1);
      assert q[..i] + q[i + 1..] == [q[0]] + (q[1..][..i - 1] + q[1..][i..]);
    }
  }

  lemma {:induction false} QueueRefresh<W>(slots: seq<Slot<W>>, order: seq<Ticket>, t: Ticket, waker: W)
    requires Live(slots, t)
    ensures Queue(slots[t.slot := Slot(Some(waker), t.generation)], order) == Refreshed(Queue(slots, order), t, waker)
  {
    if order != [] {
      QueueRefresh(slots, order[1..], t, waker);
    }
  }

  // ---- Tombstones ---------------------------------------------------------------------------------

  /** The order with its tombstones dropped. */
  function Retained<W>(slots: seq<Slot<W>>, order: seq<Ticket>): (r: seq<Ticket>)
    ensures |r| == |Queue(slots, order)| && Queue(slots, r) == Queue(slots, order)
    ensures forall t :: t in r <==> t in order && Live(slots, t)
  {
    if order == [] then []
    else if Live(slots, order[0]) then [order[0]] + Retained(slots, order[1..])
    else Retained(slots, order[1..])
  }

  lemma {:induction false} RetainedOrder<W>(slots: seq<Slot<W>>, order: seq<Ticket>, next: nat)
    requires OrderOk(slots, order, next)
    ensures OrderOk(slots, Retained(slots, order), next)
  {
    var r := Retained(slots, order);
    forall i | 0 <= i < |r|
      ensures r[i].slot < |slots| && r[i].generation < next && Live(slots, r[i]) {
      assert r[i] in r;
    }
    RetainedAscends(slots, order);
  }

  lemma AscendingTail(xs: seq<Ticket>)
    requires Ascending(xs) && xs != []
    ensures Ascending(xs[1..]) && forall t :: t in xs[1..] ==> xs[0].generation < t.generation
  {
  }

  lemma AscendingCons(x: Ticket, xs: seq<Ticket>)
    requires Ascending(xs) && forall t :: t in xs ==> x.generation < t.generation
    ensures Ascending([x] + xs)
  {
  }

  lemma {:induction false} RetainedAscends<W>(slots: seq<Slot<W>>, order: seq<Ticket>)
    requires Ascending(order)
    ensures Ascending(Retained(slots, order))
  {
    hide Ascending;
    if order == [] {
      AscendingNil();
    } else {
      AscendingTail(order);
      RetainedAscends(slots, order[1..]);
      if Live(slots, order[0]) { AscendingCons(order[0], Retained(slots, order[1..])); }
    }
  }

  lemma AscendingNil()
    ensures Ascending([])
  {
  }

  /** Generations are the order's keys: a ticket is live for at most one entry. */
  lemma QueueDistinct<W>(slots: seq<Slot<W>>, order: seq<Ticket>, next: nat, i: nat, j: nat)
    requires OrderOk(slots, order, next) && i < j < |Queue(slots, order)|
    ensures Queue(slots, order)[i].ticket.generation < Queue(slots, order)[j].ticket.generation
  {
    QueueIsRetained(slots, order, i);
    QueueIsRetained(slots, order, j);
    RetainedAscends(slots, order);
  }

  lemma {:induction false} QueueIsRetained<W>(slots: seq<Slot<W>>, order: seq<Ticket>, i: nat)
    requires i < |Queue(slots, order)|
    ensures Retained(slots, order)[i] == Queue(slots, order)[i].ticket
  {
    if Live(slots, order[0]) {
      if i > 0 { QueueIsRetained(slots, order[1..], i - 1); }
    } else {
      QueueIsRetained(slots, order[1..], i);
    }
  }

  // ---- Operations on the list ----------------------------------------------------------------------

  lemma ReuseKeeps<W>(slots: seq<Slot<W>>, free: seq<nat>, order: seq<Ticket>, next: nat, waker: W)
    requires ListOk(slots, free, order, next) && free != []
    ensures var s := free[|free| - 1];
      && s < |slots|
      && ListOk(slots[s := Slot(Some(waker), next)], free[..|free| - 1], order + [Ticket(s, next)], next + 1)
      && Queue(slots[s := Slot(Some(waker), next)], order + [Ticket(s, next)])
           == Queue(slots, order) + [Waiting(Ticket(s, next), waker)]
  {
    var s := free[|free| - 1];
    assert s in free;
    var slots' := slots[s := Slot(Some(waker), next)];
    QueueFrame(slots, slots', order);
    QueueAppend(slots', order, Ticket(s, next));
    ParkOrder(slots, slots', order, next, s);
    ParkSlots(slots, free, order, next, waker);
  }

  lemma ParkOrder<W>(slots: seq<Slot<W>>, slots': seq<Slot<W>>, order: seq<Ticket>, next: nat, s: nat)
    requires OrderOk(slots, order, next) && |slots| <= |slots'| && s < |slots'|
    requires forall k :: 0 <= k < |slots| && k != s ==> slots'[k] == slots[k]
    requires slots'[s].generation == next && slots'[s].waker.Some?
    ensures OrderOk(slots', order + [Ticket(s, next)], next + 1)
  {
  }

  lemma ParkSlots<W>(slots: seq<Slot<W>>, free: seq<nat>, order: seq<Ticket>, next: nat, waker: W)
    requires SlotsOk(slots, free, order, next) && free != []
    ensures var s := free[|free| - 1];
      && s < |slots|
      && SlotsOk(slots[s := Slot(Some(waker), next)], free[..|free| - 1], order + [Ticket(s, next)], next + 1)
  {
    var s := free[|free| - 1];
    assert s in free;
    var order' := order + [Ticket(s, next)];
    var slots' := slots[s := Slot(Some(waker), next)];
    var free' := free[..|free| - 1];
    assert order'[|order|] == Ticket(s, next);
    forall k | 0 <= k < |slots'| && slots'[k].waker.Some?
      ensures slots'[k].generation < next + 1 && Ticket(k, slots'[k].generation) in order'
    {
      if k != s { assert Ticket(k, slots[k].generation) in order; }
    }
    forall k | 0 <= k < |slots'| && slots'[k].waker.None? ensures slots'[k].generation <= next + 1 && k in free' {
      assert k != s && slots'[k] == slots[k] && k in free;
      var i :| 0 <= i < |free| && free[i] == k;
      assert free'[i] == k;
    }
    forall k | k in free' ensures k < |slots'| && slots'[k].waker.None? {
      assert k in free && k != s;
    }
  }

  lemma GrowKeeps<W>(slots: seq<Slot<W>>, order: seq<Ticket>, next: nat, waker: W)
    requires ListOk(slots, [], order, next)
    ensures var (s, slots') := (|slots|, slots + [Slot(Some(waker), next)]);
      && ListOk(slots', [], order + [Ticket(s, next)], next + 1)
      && Queue(slots', order + [Ticket(s, next)]) == Queue(slots, order) + [Waiting(Ticket(s, next), waker)]
  {
    var (s, slots') := (|slots|, slots + [Slot(Some(waker), next)]);
    var order' := order + [Ticket(s, next)];
    QueueFrame(slots, slots', order);
    QueueAppend(slots', order, Ticket(s, next));
    ParkOrder(slots, slots', order, next, s);
    assert order'[|order|] == Ticket(s, next);
    forall t | t in order ensures t in order' {
    }
  }

  /** Ending a live registration that keeps its place in the order as a tombstone. */
  lemma RetireKeeps<W>(slots: seq<Slot<W>>, free: seq<nat>, order: seq<Ticket>, next: nat, t: Ticket)
    requires ListOk(slots, free, order, next) && Live(slots, t)
    ensures var slots' := slots[t.slot := Slot(None, t.generation + 1)];
      && ListOk(slots', free + [t.slot], order, next)
      && Queue(slots', order) == WithoutTicket(Queue(slots, order), t)
  {
    var slots' := slots[t.slot := Slot(None, t.generation + 1)];
    var i := LiveIsQueued(slots, order, t);
    var q := Queue(slots, order);
    QueueRetire(slots, order, t, t.generation + 1);
    forall j | 0 <= j < |q| && j != i ensures q[j].ticket != t {
      QueueDistinct(slots, order, next, if i < j then i else j, if i < j then j else i);
    }
    TicketOnce(q, t, i);
    RetireSlots(slots, free, order, next, t);
  }

  lemma RetireSlots<W>(slots: seq<Slot<W>>, free: seq<nat>, order: seq<Ticket>, next: nat, t: Ticket)
    requires OrderOk(slots, order, next) && SlotsOk(slots, free, order, next) && Live(slots, t)
    ensures OrderOk(slots[t.slot := Slot(None, t.generation + 1)], order, next)
    ensures SlotsOk(slots[t.slot := Slot(None, t.generation + 1)], free + [t.slot], order, next)
  {
  }

  /** A tombstone at the front of the order. */
  lemma PopDeadKeeps<W>(slots: seq<Slot<W>>, free: seq<nat>, order: seq<Ticket>, next: nat)
    requires ListOk(slots, free, order, next) && order != [] && !Live(slots, order[0])
    ensures ListOk(slots, free, order[1..], next) && Queue(slots, order[1..]) == Queue(slots, order)
  {
  }

  /** The oldest live registration at the front of the order. */
  lemma PopLiveKeeps<W>(slots: seq<Slot<W>>, free: seq<nat>, order: seq<Ticket>, next: nat)
    requires ListOk(slots, free, order, next) && order != [] && Live(slots, order[0])
    ensures var t := order[0];
      && Queue(slots, order) != [] && Queue(slots, order)[0] == Waiting(t, slots[t.slot].waker.value)
      && ListOk(slots[t.slot := Slot(None, t.generation + 1)], free + [t.slot], order[1..], next)
      && Queue(slots[t.slot := Slot(None, t.generation + 1)], order[1..]) == Queue(slots, order)[1..]
  {
    hide OrderOk, SlotsOk;
    var t := order[0];
    var slots' := slots[t.slot := Slot(None, t.generation + 1)];
    PopLiveQueue(slots, order, next);
    RetireSlots(slots, free, order, next, t);
    PopLiveList(slots', free + [t.slot], order, next);
  }

  lemma PopLiveQueue<W>(slots: seq<Slot<W>>, order: seq<Ticket>, next: nat)
    requires OrderOk(slots, order, next) && order != [] && Live(slots, order[0])
    ensures var t := order[0];
      Queue(slots[t.slot := Slot(None, t.generation + 1)], order[1..]) == Queue(slots, order[1..])
  {
    var t := order[0];
    var slots' := slots[t.slot := Slot(None, t.generation + 1)];
    AscendingTail(order);
    hide Ascending;
    forall i | 0 <= i < |order[1..]|
      ensures order[1..][i].slot != t.slot && (Live(slots, order[1..][i]) <==> Live(slots', order[1..][i]))
    {
      assert order[1..][i] == order[i + 1] && order[i + 1] in order[1..];
    }
    QueueFrame(slots, slots', order[1..]);
  }

  lemma PopLiveList<W>(slots: seq<Slot<W>>, free: seq<nat>, order: seq<Ticket>, next: nat)
    requires OrderOk(slots, order, next) && SlotsOk(slots, free, order, next)
    requires order != [] && !Live(slots, order[0])
    ensures OrderOk(slots, order[1..], next) && SlotsOk(slots, free, order[1..], next)
  {
  }

  lemma CompactKeeps<W>(slots: seq<Slot<W>>, free: seq<nat>, order: seq<Ticket>, next: nat)
    requires ListOk(slots, free, order, next)
    ensures ListOk(slots, free, Retained(slots, order), next)
    ensures |Retained(slots, order)| <= |slots|
  {
    RetainedOrder(slots, order, next);
    forall s | 0 <= s < |slots| && slots[s].waker.Some?
      ensures Ticket(s, slots[s].generation) in Retained(slots, order)
    {
      assert Live(slots, Ticket(s, slots[s].generation));
    }
  }

  lemma RefreshKeeps<W>(slots: seq<Slot<W>>, free: seq<nat>, order: seq<Ticket>, next: nat, t: Ticket, waker: W)
    requires ListOk(slots, free, order, next) && Live(slots, t)
    ensures var slots' := slots[t.slot := Slot(Some(waker), t.generation)];
      && ListOk(slots', free, order, next) && Queue(slots', order) == Refreshed(Queue(slots, order), t, waker)
  {
    QueueRefresh(slots, order, t, waker);
  }

  function Wakers<W>(q: seq<Waiting<W>>): seq<W> {
    seq(|q|, i requires 0 <= i < |q| => q[i].waker)
  }

  lemma WakersNil<W>()
    ensures Wakers<W>([]) == []
  {
  }

  lemma WakersStep<W>(woken: seq<W>, q: seq<Waiting<W>>)
    requires q != []
    ensures (woken + [q[0].waker]) + Wakers(q[1..]) == woken + Wakers(q)
  {
  }

  ghost predicate Waits<W>(q: seq<Waiting<W>>, t: Ticket) {
    exists i :: 0 <= i < |q| && q[i].ticket == t
  }

  /** A ticket is live exactly while its registration waits in the queue. */
  lemma LiveMeansWaiting<W>(slots: seq<Slot<W>>, free: seq<nat>, order: seq<Ticket>, next: nat, t: Ticket)
    requires ListOk(slots, free, order, next)
    ensures Live(slots, t) <==> Waits(Queue(slots, order), t)
  {
    if Live(slots, t) {
      var i := LiveIsQueued(slots, order, t);
    } else if i :| 0 <= i < |Queue(slots, order)| && Queue(slots, order)[i].ticket == t {
      QueueIsLive(slots, order, i);
    }
  }

  lemma FreeWithin<W>(slots: seq<Slot<W>>, free: seq<nat>, order: seq<Ticket>, next: nat)
    requires ListOk(slots, free, order, next)
    ensures |Queue(slots, order)| + |free| == |slots|
    ensures forall i :: 0 <= i < |order| ==> order[i].slot < |slots|
  {
  }

  lemma RetainedNil<W>(slots: seq<Slot<W>>, order: seq<Ticket>)
    ensures Retained(slots, order[|order|..]) == []
  {
  }

  lemma RetainStep<W>(slots: seq<Slot<W>>, order: seq<Ticket>, i: nat)
    requires i < |order|
    ensures Retained(slots, order[i..]) ==
      (if Live(slots, order[i]) then [order[i]] else []) + Retained(slots, order[i + 1..])
  {
  }

  lemma EmptyOk<W>()
    ensures ListOk<W>([], [], [], 0) && Queue<W>([], []) == []
  {
    hide OrderOk, SlotsOk;
    EmptyParts<W>();
  }

  lemma EmptyParts<W>()
    ensures OrderOk<W>([], [], 0) && SlotsOk<W>([], [], [], 0)
  {
  }

  // ---- The list ----------------------------------------------------------------------------------------

  class Waiters<W> {
    var slots: seq<Slot<W>>
    var free: seq<nat>
    var order: seq<Ticket>
    var nextGeneration: nat
    var closed: bool
    /** The published count of live registrations. */
    var waiting: nat

    ghost var peak: nat

    ghost function Q(): seq<Waiting<W>>
      reads this
    {
      Queue(slots, order)
    }

    /** What holds whenever the lock is free. */
    ghost predicate Valid()
      reads this
    {
      && ListOk(slots, free, order, nextGeneration)
      && waiting == |Q()| && |slots| == peak >= waiting
      && OrderBounded(slots, order)
    }

    constructor ()
      ensures Valid() && Q() == [] && !closed && peak == 0
    {
      hide ListOk, Queue;
      slots, free, order, nextGeneration, closed, waiting, peak := [], [], [], 0, false, 0, 0;
      new;
      EmptyOk<W>();
    }

    /** Whether anyone is parked, from the published count alone. */
    method Any() returns (some: bool)
      requires Valid()
      ensures some <==> Q() != []
    {
      some := waiting != 0;
    }

    method Publish()
      requires |free| <= |slots|
      modifies `waiting
      ensures waiting == |slots| - |free|
    {
      waiting := |slots| - |free|;
    }

    /** End the registration in a slot, returning its waker if it was live. */
    method Retire(slot: nat) returns (waker: Option<W>)
      requires slot < |slots|
      modifies `slots, `free
      ensures waker == old(slots)[slot].waker
      ensures waker.None? ==> slots == old(slots) && free == old(free)
      ensures waker.Some? ==>
        slots == old(slots)[slot := Slot(None, old(slots)[slot].generation + 1)] && free == old(free) + [slot]
    {
      waker := slots[slot].waker;
      if waker.Some? {
        slots := slots[slot := Slot(None, slots[slot].generation + 1)];
        free := free + [slot];
      }
    }

    /** Drop the tombstones once the order is long against the free slots. */
    method Compact()
      requires ListOk(slots, free, order, nextGeneration)
      modifies `order
      ensures ListOk(slots, free, order, nextGeneration) && Q() == old(Q()) && OrderBounded(slots, order)
      ensures order == if Compacts(old(|order|), |free|) then Retained(slots, old(order)) else old(order)
    {
      hide ListOk, Queue, Retained;
      FreeWithin(slots, free, order, nextGeneration);
      if |order| <= 8 || |order| < |free| * 2 { return; }
      CompactKeeps(slots, free, order, nextGeneration);
      var kept := [];
      var i := 0;
      assert order[0..] == order;
      while i < |order|
        invariant 0 <= i <= |order| && order == old(order)
        invariant kept + Retained(slots, order[i..]) == Retained(slots, order)
      {
        RetainStep(slots, order, i);
        assert order[i] in order;
        if slots[order[i].slot].generation == order[i].generation && slots[order[i].slot].waker.Some? {
          kept := kept + [order[i]];
        }
        i := i + 1;
      }
      RetainedNil(slots, order);
      assert kept + [] == kept;
      order := kept;
    }

    /** Take a free slot, or a new one, and join the order. */
    method Enlist(waker: W, generation: nat) returns (slot: nat)
      requires ListOk(slots, free, order, generation)
      modifies `slots, `free, `order
      ensures ListOk(slots, free, order, generation + 1) && order == old(order) + [Ticket(slot, generation)]
      ensures Q() == old(Q()) + [Waiting(Ticket(slot, generation), waker)]
      ensures |free| == if old(free) == [] then 0 else old(|free|) - 1
    {
      hide ListOk, Queue;
      if free != [] {
        ReuseKeeps(slots, free, order, generation, waker);
        slot := free[|free| - 1];
        free := free[..|free| - 1];
        slots := slots[slot := Slot(Some(waker), generation)];
      } else {
        GrowKeeps(slots, order, generation, waker);
        slot := |slots|;
        slots := slots + [Slot(Some(waker), generation)];
      }
      order := order + [Ticket(slot, generation)];
    }

    /** Park a waker behind everyone already waiting. */
    method Park(waker: W) returns (ticket: Option<Ticket>)
      requires Valid()
      modifies this
      ensures Valid() && closed == old(closed)
      ensures closed ==> ticket == None && Q() == old(Q()) && peak == old(peak)
      ensures !closed ==>
        && ticket.Some? && ticket.value.generation == old(nextGeneration) && nextGeneration == old(nextGeneration) + 1
        && Q() == old(Q()) + [Waiting(ticket.value, waker)]
        && peak == if old(peak) > |Q()| then old(peak) else |Q()|
      // The storage, and when tombstones still outnumber the live entries.
      ensures !closed ==>
        && |free| == (if old(free) == [] then 0 else old(|free|) - 1)
        && |order| == (if Compacts(old(|order|) + 1, |free|) then |Q()| else old(|order|) + 1)
        && (TombstonesPrevail(slots, order) <==>
              old(|order|) + 1 > 2 * (|old(Q())| + 1) && !Compacts(old(|order|) + 1, |free|))
    {
      hide ListOk, Queue, Retained, Live, TombstonesPrevail, OrderBounded, Compacts;
      if closed { return None; }
      FreeWithin(slots, free, order, nextGeneration);
      var generation := nextGeneration;
      nextGeneration := generation + 1;
      var slot := Enlist(waker, generation);
      ghost var listed := order;
      Compact();
      FreeWithin(slots, free, order, nextGeneration);
      PrevailAfterGuard(slots, listed, order, |free|);
      Publish();
      peak := if peak > |Q()| then peak else |Q()|;
      ticket := Some(Ticket(slot, generation));
    }

    /** Point a registration at a new waker; an ended ticket changes nothing. */
    method Refresh(ticket: Ticket, waker: W)
      requires Valid()
      modifies `slots
      ensures Valid() && Q() == Refreshed(old(Q()), ticket, waker)
      ensures !Waits(old(Q()), ticket) ==> slots == old(slots)
    {
      hide OrderOk, SlotsOk;
      LiveMeansWaiting(slots, free, order, nextGeneration, ticket);
      if !Live(slots, ticket) {
        assert Refreshed(Q(), ticket, waker) == Q();
        return;
      }
      RefreshKeeps(slots, free, order, nextGeneration, ticket, waker);
      slots := slots[ticket.slot := Slot(Some(waker), ticket.generation)];
    }

    /** End a registration because the sender went away. */
    method Cancel(ticket: Ticket) returns (live: bool)
      requires Valid()
      modifies `slots, `free, `order, `waiting
      ensures Valid() && (live <==> Waits(old(Q()), ticket))
      ensures Q() == if live then WithoutTicket(old(Q()), ticket) else old(Q())
      ensures !live ==> slots == old(slots) && free == old(free) && order == old(order)
      // The storage, and when tombstones still outnumber the live entries.
      ensures live ==>
        && |free| == old(|free|) + 1
        && |order| == (if Compacts(old(|order|), |free|) then |Q()| else old(|order|))
        && (TombstonesPrevail(slots, order) <==> old(|order|) > 2 * |Q()| && !Compacts(old(|order|), |free|))
    {
      hide OrderOk, SlotsOk;
      LiveMeansWaiting(slots, free, order, nextGeneration, ticket);
      if !Live(slots, ticket) { return false; }
      RetireKeeps(slots, free, order, nextGeneration, ticket);
      var waker := Retire(ticket.slot);
      Compact();
      PrevailAfterGuard(slots, old(order), order, |free|);
      Publish();
      live := true;
    }

    /** Hand a freed slot to whoever has waited longest. */
    method WakeOne() returns (woken: Option<W>)
      requires Valid()
      modifies `slots, `free, `order, `waiting
      ensures Valid()
      ensures old(Q()) == [] ==> woken == None && Q() == []
      ensures old(Q()) != [] ==> woken == Some(old(Q())[0].waker) && Q() == old(Q())[1..]
    {
      hide SlotsOk;
      woken := None;
      while order != []
        invariant ListOk(slots, free, order, nextGeneration) && |slots| == peak && |order| <= old(|order|)
        invariant Q() == old(Q()) && woken == None
        decreases |order|
      {
        var front := order[0];
        if slots[front.slot].generation != front.generation {
          PopDeadKeeps(slots, free, order, nextGeneration);
          order := order[1..];
          continue;
        }
        PopLiveKeeps(slots, free, order, nextGeneration);
        order := order[1..];
        woken := Retire(front.slot);
        break;
      }
      Publish();
    }

    /** Nobody may park again, and everyone parked is woken, oldest first. */
    method Close() returns (woken: seq<W>)
      requires Valid()
      modifies `slots, `free, `order, `waiting, `closed
      ensures Valid() && closed && Q() == [] && woken == Wakers(old(Q()))
    {
      hide SlotsOk, Wakers;
      WakersNil<W>();
      closed := true;
      woken := [];
      while order != []
        invariant ListOk(slots, free, order, nextGeneration) && |slots| == peak
        invariant closed && woken + Wakers(Q()) == Wakers(old(Q()))
        decreases |order|
      {
        var front := order[0];
        ghost var q := Q();
        if slots[front.slot].generation != front.generation {
          PopDeadKeeps(slots, free, order, nextGeneration);
          order := order[1..];
          continue;
        }
        PopLiveKeeps(slots, free, order, nextGeneration);
        order := order[1..];
        var waker := Retire(front.slot);
        WakersStep(woken, q);
        woken := woken + [waker.value];
      }
      Publish();
    }
  }

  /** A burst of cancellations that is never given back: fifteen senders park and all
      go away, and ten entries stay in the order with nobody waiting. */
  method BurstOfCancellations(waker: nat) returns (list: Waiters<nat>)
    ensures fresh(list) && list.Valid() && list.Q() == [] && |list.order| == 10
    ensures TombstonesPrevail(list.slots, list.order)
  {
    list := new Waiters<nat>();
    var tickets: seq<Ticket> := [];
    while |tickets| < 15
      invariant fresh(list) && list.Valid() && !list.closed && |tickets| <= 15
      invariant |list.order| == |list.Q()| == |tickets| && list.free == []
      invariant forall i :: 0 <= i < |tickets| ==> list.Q()[i].ticket == tickets[i]
    {
      var ticket := list.Park(waker);
      tickets := tickets + [ticket.value];
    }
    while tickets != []
      invariant fresh(list) && list.Valid() && |tickets| <= 15
      invariant |list.Q()| == |tickets| && |list.free| == 15 - |tickets|
      invariant |list.order| == if |tickets| >= 10 then |tickets| else 10
      invariant forall i :: 0 <= i < |tickets| ==> list.Q()[i].ticket == tickets[i]
      decreases |tickets|
    {
      FirstCancelled(list.slots, list.order, list.nextGeneration);
      assert list.Q()[0].ticket == tickets[0];
      var live := list.Cancel(tickets[0]);
      tickets := tickets[1..];
    }
  }

  lemma FirstCancelled<W>(slots: seq<Slot<W>>, order: seq<Ticket>, next: nat)
    requires OrderOk(slots, order, next) && Queue(slots, order) != []
    ensures var q := Queue(slots, order); Waits(q, q[0].ticket) && WithoutTicket(q, q[0].ticket) == q[1..]
  {
    var q := Queue(slots, order);
    forall j | 0 <= j < |q| && j != 0 ensures q[j].ticket != q[0].ticket {
      QueueDistinct(slots, order, next, 0, j);
    }
    TicketOnce(q, q[0].ticket, 0);
  }
}
