/** The scheduler as stored: a key map whose slots carry a list handle and two
    idle links, per-class rings, one slab, and counters. Every operation refines
    the operation of the same name on the book it realises. */
module KeyScheduler {
  import opened Options
  import opened Sequences
  import opened MachineWords
  import opened Book
  import Spec = Book
  import opened BookInvariant
  import Laws = BookLaws
  import Theorems = BookTheorems
  import opened QueueSlab
  import opened SchedulerLinks
  import opened SchedulerTies

  // ---- Steps of the operations on stored fields -----------------------------------------------

  lemma IdleMembers<K, P, S>(b: Book<K, P, S>, cfg: Config, key: K)
    requires Inv(b, cfg)
    ensures key in b.idle <==> key in b.slots && b.slots[key].presence.Idle?
    ensures key in b.running <==> key in b.slots && b.slots[key].presence.InFlight?
    ensures key in b.slots && b.slots[key].presence.Idle? ==> b.slots[key].queue == []
    ensures |b.inflight| == |b.ready| == |cfg.maxInflight|
  {
  }

  lemma ColdTies<K(!new), P, S>(f: Fields<K, P, S>, b: Book<K, P, S>, key: K)
    requires Tied(f, b) && key !in b.slots
    ensures Tied(f.(keys := f.keys[key := ColdSlot()]), b.(slots := b.slots[key := Cold()]))
  {
    hide SlotsTied, IdleLinked, OnlyQueue;
    TiedSlot(f, b, key);
    SameQueues(f.queues, f.lists, key);
    Rewrite(f, b, key, ColdSlot(), f.queues, f.lists, Cold());
  }

  lemma EnqueueTies<K(!new), P, S>(f: Fields<K, P, S>, b: Book<K, P, S>, key: K, item: Item<P>, list: List)
    requires Tied(f, b) && key in b.slots
    ensures key in f.keys
    ensures Tied(f.(keys := f.keys[key := f.keys[key].(queue := list)],
                    queues := f.queues[key := QueueIn(f.queues, key) + [item]], lists := f.lists[key := list],
                    live := f.live + 1, pending := f.pending + 1),
                 Enqueue(b, key, item))
  {
    hide SlotsTied, IdleLinked, OnlyQueue;
    TiedSlot(f, b, key);
    var queue := QueueIn(f.queues, key) + [item];
    OneQueue(f.queues, f.lists, key, queue, list);
    Rewrite(f, b, key, f.keys[key].(queue := list), f.queues[key := queue], f.lists[key := list],
            b.slots[key].(queue := b.slots[key].queue + [item]));
  }

  /** Changing a slot's presence and resident state. */
  lemma PresenceTies<K(!new), P, S>(f: Fields<K, P, S>, b: Book<K, P, S>, key: K, presence: Presence,
                                    resident: Option<S>)
    requires Tied(f, b) && key in b.slots
    ensures key in f.keys
    ensures Tied(f.(keys := f.keys[key := f.keys[key].(presence := presence, resident := resident)]),
                 b.(slots := b.slots[key := b.slots[key].(presence := presence, resident := resident)]))
  {
    hide SlotsTied, IdleLinked, OnlyQueue;
    TiedSlot(f, b, key);
    SameQueues(f.queues, f.lists, key);
    Rewrite(f, b, key, f.keys[key].(presence := presence, resident := resident), f.queues, f.lists,
            b.slots[key].(presence := presence, resident := resident));
  }

  /** Taking the head off a key's queue, the item not yet accounted for. */
  lemma DequeueTies<K(!new), P, S>(f: Fields<K, P, S>, b: Book<K, P, S>, key: K, list: List)
    requires Tied(f, b) && key in b.slots && b.slots[key].queue != [] && f.live > 0
    ensures key in f.keys && QueueIn(f.queues, key) == b.slots[key].queue
    ensures var f' := f.(keys := f.keys[key := f.keys[key].(queue := list)],
                         queues := f.queues[key := QueueIn(f.queues, key)[1..]], lists := f.lists[key := list]);
      Tied(f', b.(slots := b.slots[key := b.slots[key].(queue := b.slots[key].queue[1..])]))
  {
    hide SlotsTied, IdleLinked, OnlyQueue;
    TiedSlot(f, b, key);
    var queue := QueueIn(f.queues, key)[1..];
    OneQueue(f.queues, f.lists, key, queue, list);
    Rewrite(f, b, key, f.keys[key].(queue := list), f.queues[key := queue], f.lists[key := list],
            b.slots[key].(queue := b.slots[key].queue[1..]));
  }

  lemma ExpireNone<K, P, S>(b: Book<K, P, S>, key: K)
    requires key in b.slots
    ensures Expire(b, key, 0) == b
  {
  }

  lemma ExpireMore<K, P, S>(b: Book<K, P, S>, key: K, n: nat)
    requires key in b.slots && n < |b.slots[key].queue|
    ensures var q := b.slots[key].queue;
      var done := Expire(b, key, n);
      && done.slots[key].queue == q[n..] && q[n..] != [] && q[n..][0] == q[n]
      && Expire(b, key, n + 1) ==
         done.(slots := done.slots[key := done.slots[key].(queue := q[n..][1..])],
               pending := done.pending - 1, expired := done.expired + [(key, q[n].cls, q[n].payload)])
  {
  }

  /** The first `n` items of a queue, all overdue, went from the counter to the discards. */
  ghost predicate Discarded<K(!new), P>(key: K, q: seq<Item<P>>, cls: nat, now: nat, n: nat, pending: int,
                                        pending': int, expired: seq<(K, nat, P)>, expired': seq<(K, nat, P)>) {
    Theorems.Overdue(q, cls, now, n) && pending' == pending - n && expired' == expired + Tagged(key, q[..n])
  }

  lemma DiscardedNone<K(!new), P>(key: K, q: seq<Item<P>>, cls: nat, now: nat, pending: int, expired: seq<(K, nat, P)>)
    ensures Discarded(key, q, cls, now, 0, pending, pending, expired, expired)
  {
  }

  lemma DiscardedMore<K(!new), P>(key: K, q: seq<Item<P>>, cls: nat, now: nat, n: nat, pending: int, pending': int,
                                  expired: seq<(K, nat, P)>, expired': seq<(K, nat, P)>)
    requires Discarded(key, q, cls, now, n, pending, pending', expired, expired')
    requires n < |q| && q[n].cls == cls && Due(q[n], now)
    ensures Discarded(key, q, cls, now, n + 1, pending, pending' - 1, expired,
                      expired' + [(key, q[n].cls, q[n].payload)])
  {
    assert Tagged(key, q[..n + 1]) == Tagged(key, q[..n]) + [(key, q[n].cls, q[n].payload)];
  }

  /** Where the loop stops, the overdue heads are gone and the next item is taken or left. */
  lemma TakesAt<K(!new), P>(key: K, q: seq<Item<P>>, cls: nat, now: nat, n: nat, pending: int, pending': int,
                            expired: seq<(K, nat, P)>, expired': seq<(K, nat, P)>, taken: Option<Item<P>>)
    requires Discarded(key, q, cls, now, n, pending, pending', expired, expired')
    requires if taken.Some? then n < |q| && taken.value == q[n] && q[n].cls == cls && !Due(q[n], now)
             else n == |q| || q[n].cls != cls
    ensures Laws.Takes(q, cls, now, taken, n)
  {
  }

  lemma HeadsMore<P>(q: seq<Item<P>>, cls: nat, now: nat, n: nat)
    requires n < |q| && q[n].cls == cls && Due(q[n], now)
    ensures ExpiredHeads(q[n..], cls, now) == 1 + ExpiredHeads(q[n + 1..], cls, now)
  {
  }

  /** Settling a slot and then placing its key is what `Place` does. */
  lemma SettledPlace<K, P, S>(b: Book<K, P, S>, key: K, now: nat)
    requires key in b.slots
    requires b.slots[key].queue != [] ==> b.slots[key].queue[0].cls < |b.ready|
    ensures b.slots[key].queue == [] ==>
      GoIdle(b.(slots := b.slots[key := b.slots[key].(presence := Idle)]), key, now) == Place(b, key, now)
    ensures b.slots[key].queue != [] ==>
      var c := b.slots[key].queue[0].cls;
      b.(slots := b.slots[key := b.slots[key].(presence := Ready(c))], ready := b.ready[c := b.ready[c] + [key]])
        == Place(b, key, now)
  {
  }

  ghost function RousedBook<K, P, S>(b: Book<K, P, S>, key: K, cls: nat, resurrected: bool): Book<K, P, S>
    requires key in b.slots && cls < |b.ready|
  {
    b.(slots := b.slots[key := b.slots[key].(presence := Ready(cls))],
       idle := if resurrected then Without(b.idle, key) else b.idle,
       ready := b.ready[cls := b.ready[cls] + [key]])
  }

  /** An idle key's admission, one write at a time. */
  lemma AdmitSteps<K, P, S>(b: Book<K, P, S>, key: K, item: Item<P>)
    requires item.cls < |b.ready|
    requires key in b.slots && b.slots[key].presence.Idle? ==> b.slots[key].queue == []
    ensures var queued := Enqueue(if key in b.slots then b else b.(slots := b.slots[key := Cold()]), key, item);
      Admit(b, key, item) ==
        if key in b.slots && !b.slots[key].presence.Idle? then queued else
        RousedBook(queued, key, item.cls, key in b.slots)
  {
  }

  lemma ReadyTies<K(!new), P, S>(f: Fields<K, P, S>, b: Book<K, P, S>, ready: seq<seq<K>>)
    requires Tied(f, b)
    ensures Tied(f.(ready := ready), b.(ready := ready))
  {
  }

  // ---- Dispatch, on stored fields -------------------------------------------------------------

  ghost function Dequeued<K, P, S>(b: Book<K, P, S>, key: K): Book<K, P, S>
    requires key in b.slots && b.slots[key].queue != []
  {
    b.(slots := b.slots[key := b.slots[key].(queue := b.slots[key].queue[1..])])
  }

  lemma DropTies<K(!new), P, S>(f: Fields<K, P, S>, b: Book<K, P, S>, key: K, n: nat)
    requires key in b.slots && n < |b.slots[key].queue|
    requires key in Expire(b, key, n).slots && Expire(b, key, n).slots[key].queue != []
    requires Tied(f.(live := f.live + 1), Dequeued(Expire(b, key, n), key))
    ensures var item := b.slots[key].queue[n];
      Tied(f.(pending := f.pending - 1, expired := f.expired + [(key, item.cls, item.payload)]), Expire(b, key, n + 1))
  {
    hide SlotsTied, IdleLinked;
    ExpireMore(b, key, n);
  }

  lemma ExpireSoFar<K, P, S>(b: Book<K, P, S>, key: K, n: nat)
    requires key in b.slots && n <= |b.slots[key].queue|
    ensures var q := b.slots[key].queue;
      && key in Expire(b, key, n).slots && Expire(b, key, n).slots[key].queue == q[n..]
      && (q[n..] == [] <==> n == |q|)
      && (n < |q| ==> q[n..][0] == q[n])
  {
  }

  /** What draining a key's expired heads comes to: its first live head of the
      class, taken but not yet accounted for, or nothing. */
  ghost predicate AfterTake<K(!new), P, S>(f: Fields<K, P, S>, b: Book<K, P, S>, key: K, cls: nat, now: nat,
                                           taken: Option<Item<P>>)
    requires key in b.slots
  {
    var q := b.slots[key].queue;
    var n := ExpiredHeads(q, cls, now);
    ExpireSoFar(b, key, n);
    if n < |q| && q[n].cls == cls then
      taken == Some(q[n]) && Tied(f.(live := f.live + 1), Dequeued(Expire(b, key, n), key))
    else
      taken == None && Tied(f, Expire(b, key, n))
  }

  lemma NoneTaken<K(!new), P, S>(f: Fields<K, P, S>, b: Book<K, P, S>, key: K, cls: nat, now: nat, n: nat)
    requires key in b.slots && n <= |b.slots[key].queue| && Tied(f, Expire(b, key, n))
    requires ExpiredHeads(b.slots[key].queue, cls, now) == n + ExpiredHeads(b.slots[key].queue[n..], cls, now)
    requires n < |b.slots[key].queue| ==> b.slots[key].queue[n].cls != cls
    ensures AfterTake(f, b, key, cls, now, None)
  {
    hide Tied, Expire;
  }

  lemma OneTaken<K(!new), P, S>(f: Fields<K, P, S>, b: Book<K, P, S>, key: K, cls: nat, now: nat, n: nat)
    requires key in b.slots && n < |b.slots[key].queue|
    requires b.slots[key].queue[n].cls == cls && !Due(b.slots[key].queue[n], now)
    requires ExpiredHeads(b.slots[key].queue, cls, now) == n + ExpiredHeads(b.slots[key].queue[n..], cls, now)
    requires key in Expire(b, key, n).slots && Expire(b, key, n).slots[key].queue != []
    requires Tied(f.(live := f.live + 1), Dequeued(Expire(b, key, n), key))
    ensures AfterTake(f, b, key, cls, now, Some(b.slots[key].queue[n]))
  {
    hide Tied, Expire;
  }

  lemma StartTies<K(!new), P, S>(f: Fields<K, P, S>, b: Book<K, P, S>, key: K, cls: nat)
    requires key in b.slots && b.slots[key].queue != [] && cls < |b.inflight| && key !in b.running
    requires Tied(f.(live := f.live + 1), Dequeued(b, key))
    ensures key in f.keys && |f.inflight| == |b.inflight|
    ensures Tied(f.(keys := f.keys[key := f.keys[key].(presence := InFlight, resident := None)],
                    inflight := f.inflight[cls := f.inflight[cls] + 1]),
                 Start(b, key, cls))
  {
    hide SlotsTied, IdleLinked;
    PresenceTies(f.(live := f.live + 1), Dequeued(b, key), key, InFlight, None);
    var queue := b.slots[key].queue[1..];
    assert Dequeued(b, key).slots[key := b.slots[key].(queue := queue, presence := InFlight, resident := None)]
        == b.slots[key := b.slots[key].(queue := queue, presence := InFlight, resident := None)];
    RunningGrows(b.running, key, cls);
  }

  lemma RunningGrows<K>(running: map<K, nat>, key: K, cls: nat)
    requires key !in running
    ensures |running[key := cls]| == |running| + 1
  {
  }

  lemma RunningShrinks<K>(running: map<K, nat>, key: K)
    requires key in running
    ensures |running - {key}| == |running| - 1
  {
  }

  /** A completed key's state comes back, before it is placed. */
  ghost function Returned<K, P, S>(b: Book<K, P, S>, key: K, cls: nat, kept: Option<S>): Book<K, P, S>
    requires key in b.slots && cls < |b.inflight|
  {
    b.(slots := b.slots[key := b.slots[key].(resident := kept)],
       inflight := b.inflight[cls := b.inflight[cls] - 1],
       pending := b.pending - 1,
       running := b.running - {key})
  }

  lemma ReturnTies<K(!new), P, S>(f: Fields<K, P, S>, b: Book<K, P, S>, key: K, cls: nat, kept: Option<S>)
    requires Tied(f, b) && key in b.slots && cls < |b.inflight| && key in b.running
    ensures key in f.keys && |f.inflight| == |b.inflight|
    ensures Tied(f.(keys := f.keys[key := f.keys[key].(resident := kept)],
                    inflight := f.inflight[cls := f.inflight[cls] - 1], pending := f.pending - 1),
                 Returned(b, key, cls, kept))
  {
    hide SlotsTied, IdleLinked;
    TiedSlot(f, b, key);
    PresenceTies(f, b, key, b.slots[key].presence, kept);
    RunningShrinks(b.running, key);
  }

  lemma DropKeyTies<K(!new), P, S>(f: Fields<K, P, S>, b: Book<K, P, S>, key: K)
    requires Tied(f, b) && key in b.slots && key !in b.idle
    requires QueueIn(f.queues, key) == [] && ListIn(f.lists, key) == EMPTY_LIST
    ensures Tied(f.(keys := f.keys - {key}), b.(slots := b.slots - {key}))
  {
    hide SlotsTied, IdleLinked;
    SlotGone(f.keys, f.queues, f.lists, b.slots, key);
    IdleInKeys(f.keys, f.head, f.tail, f.idle, b.idle);
    LinksFrame(f.keys, f.keys - {key}, f.head, f.tail, f.idle, b.idle);
  }

  lemma EvictingTies<K(!new), P, S>(f: Fields<K, P, S>, b: Book<K, P, S>, evicting: int)
    requires Tied(f, b)
    ensures f.evicting == b.evicting
    ensures Tied(f.(evicting := evicting), b.(evicting := evicting))
  {
  }

  /** The key at the front of a ring is ready there, and owed nothing. */
  lemma FrontKey<K, P, S>(b: Book<K, P, S>, cfg: Config, cls: nat)
    requires Inv(b, cfg) && cls < |b.ready| && b.ready[cls] != []
    ensures var key := b.ready[cls][0]; key in b.slots && key !in b.idle && key !in b.running
    ensures |b.inflight| == |b.ready|
  {
    hide IdleOk, AccountsOk, Distinct;
    var key := b.ready[cls][0];
    assert key in b.ready[cls];
    IdleMembers(b, cfg, key);
  }

  /** What `TakeFront` does, from the popped ring on. */
  lemma TakeFrontSteps<K, P, S>(b: Book<K, P, S>, cls: nat, now: nat)
    requires Drainable(b) && cls < |b.ready| && b.ready[cls] != []
    ensures var key := b.ready[cls][0];
      var popped := b.(ready := b.ready[cls := b.ready[cls][1..]]);
      var q := b.slots[key].queue;
      var n := ExpiredHeads(q, cls, now);
      && key in popped.slots && popped.slots[key].queue == q
      && var rest := Expire(popped, key, n);
      && key in rest.slots && rest.slots[key].queue == q[n..]
      && rest.idle == b.idle && rest.running == b.running && rest.ready == popped.ready && rest.inflight == b.inflight
      && (n < |q| && q[n].cls == cls ==>
            rest.slots[key].queue != [] && q[n..][0] == q[n] &&
            TakeFront(b, cls, now) ==
              (Start(rest, key, cls), Some(Dispatch(key, cls, b.slots[key].resident, q[n].payload))))
      && (!(n < |q| && q[n].cls == cls) ==>
            && (rest.slots[key].queue != [] ==> rest.slots[key].queue[0].cls < |rest.ready|)
            && TakeFront(b, cls, now) == (Place(rest, key, now), None))
  {
  }

  lemma DrainStep<K, P, S>(b: Book<K, P, S>, cls: nat, now: nat)
    requires Drainable(b) && cls < |b.ready| && b.ready[cls] != []
    ensures var (b', d) := TakeFront(b, cls, now);
      && Drainable(b') && |b'.ready| == |b.ready| && |b'.ready[cls]| < |b.ready[cls]|
      && Drain(b, cls, now) == if d.Some? then (b', d) else Drain(b', cls, now)
  {
    hide TakeFront;
    TakeFrontShrinks(b, cls, now);
  }

  lemma TakeOutcome<K(!new), P, S>(f: Fields<K, P, S>, b: Book<K, P, S>, key: K, cls: nat, now: nat,
                                   taken: Option<Item<P>>)
    requires key in b.slots && AfterTake(f, b, key, cls, now, taken)
    ensures var q := b.slots[key].queue;
      var n := ExpiredHeads(q, cls, now);
      && key in Expire(b, key, n).slots && Expire(b, key, n).slots[key].queue == q[n..]
      && (taken.Some? <==> n < |q| && q[n].cls == cls)
      && (taken.Some? ==>
           taken.value == q[n] && q[n..] != [] && Tied(f.(live := f.live + 1), Dequeued(Expire(b, key, n), key)))
      && (taken.None? ==> Tied(f, Expire(b, key, n)))
  {
    hide Tied;
  }

  lemma DrainEmpty<K, P, S>(b: Book<K, P, S>, cls: nat, now: nat)
    requires Drainable(b) && cls < |b.ready| && b.ready[cls] == []
    ensures Drain(b, cls, now) == (b, None)
  {
  }

  /** Serving a key without dispatching it spends no budget. */
  lemma FrontBudget<K, P, S>(b: Book<K, P, S>, cls: nat, now: nat)
    requires Drainable(b) && cls < |b.ready| && b.ready[cls] != []
    ensures var (b', d) := TakeFront(b, cls, now); d.None? ==> b'.inflight == b.inflight
  {
  }

  lemma SettledSlot<K(!new), P, S>(f: Fields<K, P, S>, b: Book<K, P, S>, cfg: Config)
    requires Tied(f, b) && Inv(b, cfg)
    ensures Drainable(b) && IdleListed(b) && |f.ready| == |b.ready| == |f.inflight| == |b.inflight| == |cfg.maxInflight|
    ensures f.ready == b.ready && f.inflight == b.inflight
  {
    hide SlotsTied, IdleLinked, PlacesOk, CountsOk, StateOk;
    InvDrainable(b, cfg, {});
  }

  /** Cutting the oldest key off the idle list. */
  lemma OldestCut<K, P, S>(b: Book<K, P, S>)
    requires IdleListed(b) && b.idle != []
    ensures Without(b.idle, b.idle[0]) == b.idle[1..] && b.idle[0] !in b.idle[1..]
    ensures ReleaseOldest(b) == Release(b.(idle := b.idle[1..]), b.idle[0])
  {
    WithoutAt(b.idle, 0);
    assert b.idle[..0] + b.idle[1..] == b.idle[1..];
  }

  lemma SizesAgree<K(!new), P, S>(f: Fields<K, P, S>, b: Book<K, P, S>)
    requires Tied(f, b)
    ensures |f.keys| == |b.slots| && f.evicting == b.evicting
    ensures f.head == if b.idle == [] then None else Some(b.idle[0])
  {
  }

  lemma SweepStep<K, P, S>(b: Book<K, P, S>, cfg: Config, now: nat, iters: nat)
    requires IdleListed(b) && iters > 0
    requires b.idle != [] ==> IdleListed(ReleaseOldest(b).0)
    ensures Sweep(b, cfg, now, iters) ==
      if b.idle == [] || (!OldEnough(b, cfg, b.idle[0], now) && !OverCapacity(b, cfg)) then (b, [])
      else (Sweep(ReleaseOldest(b).0, cfg, now, iters - 1).0,
            ReleaseOldest(b).1 + Sweep(ReleaseOldest(b).0, cfg, now, iters - 1).1)
  {
  }

  lemma SweepNothing<K, P, S>(b: Book<K, P, S>, cfg: Config, now: nat)
    requires IdleListed(b)
    ensures Sweep(b, cfg, now, 0) == (b, [])
  {
  }

  lemma EvictAllStep<K, P, S>(b: Book<K, P, S>)
    requires IdleListed(b)
    requires b.idle != [] ==> IdleListed(ReleaseOldest(b).0)
    ensures b.idle == [] ==> EvictAll(b) == (b, [])
    ensures b.idle != [] ==> |ReleaseOldest(b).0.idle| < |b.idle|
    ensures b.idle != [] ==>
      EvictAll(b) == (EvictAll(ReleaseOldest(b).0).0, ReleaseOldest(b).1 + EvictAll(ReleaseOldest(b).0).1)
  {
  }

  lemma AppendAssoc<T>(a: seq<T>, b: seq<T>, c: seq<T>)
    ensures a + (b + c) == (a + b) + c
    ensures a == [] ==> a + c == c
    ensures a + [] == a
  {
  }

  lemma FinishFacts<K, P, S>(b: Book<K, P, S>, cfg: Config, key: K, now: nat)
    requires Inv(b, cfg) && key in b.slots && b.slots[key].presence.Evicting?
    ensures key !in b.idle
    ensures b.slots[key].queue != [] ==> b.slots[key].queue[0].cls < |b.ready|
    ensures Inv(FinishEvict(b, key, now), cfg)
    ensures b.slots[key].queue == [] ==>
      FinishEvict(b, key, now) == b.(evicting := b.evicting - 1, slots := b.slots - {key})
    ensures b.slots[key].queue != [] ==> FinishEvict(b, key, now) == Place(b.(evicting := b.evicting - 1), key, now)
  {
    hide Inv, Place;
    IdleMembers(b, cfg, key);
    FinishEvictKeeps(b, cfg, key, now);
  }

  lemma EmptyHandle<K, P>(nodes: seq<Node<Item<P>>>, free: nat, t: Track<K, Item<P>>, list: List, key: K)
    requires Good(nodes, free, t) && list == ListIn(t.lists, key)
    ensures list.len == |QueueIn(t.queues, key)|
    ensures QueueIn(t.queues, key) == [] ==> list == EMPTY_LIST
  {
  }

  lemma ReleaseListed<K, P, S>(b: Book<K, P, S>, cfg: Config)
    requires Inv(b, cfg)
    ensures IdleListed(b)
    ensures b.idle != [] ==>
      IdleListed(ReleaseOldest(b).0) && Inv(ReleaseOldest(b).0, cfg) && b.slots[b.idle[0]].queue == []
  {
    hide PlacesOk, AccountsOk, ReleaseOldest;
    InvDrainable(b, cfg, {});
    if b.idle != [] {
      IdleMembers(b, cfg, b.idle[0]);
      ReleaseOldestKeeps(b, cfg);
      InvDrainable(ReleaseOldest(b).0, cfg, {});
    }
  }

  class Scheduler<K(==, !new), P, S> {
    const cfg: Config
    const slab: Slab<K, Item<P>>

    var keys: map<K, KSlot<K, S>>
    var ready: seq<seq<K>>
    var idleHead: Option<K>
    var idleTail: Option<K>
    var idle: int
    var expired: seq<(K, nat, P)>
    var inflight: seq<int>
    var pending: int
    var evicting: int

    ghost var book: Book<K, P, S>

    ghost function F(): Fields<K, P, S>
      reads this, slab
    {
      Fields(keys, slab.track.queues, slab.track.lists, slab.track.live, ready, idleHead, idleTail, idle,
             expired, inflight, pending, evicting)
    }

    /** The stored state realises a book that keeps the structural invariant. */
    ghost predicate Valid()
      reads this, slab
    {
      slab.Valid() && Tied(F(), book) && Inv(book, cfg)
    }

    constructor (cfg: Config)
      ensures Valid() && fresh(slab) && this.cfg == cfg && book == Empty(|cfg.maxInflight|)
    {
      this.cfg := cfg;
      slab := new Slab();
      keys := map[];
      ready := seq(|cfg.maxInflight|, _ => []);
      idleHead, idleTail, idle := None, None, 0;
      expired := [];
      inflight := seq(|cfg.maxInflight|, _ => 0);
      pending, evicting := 0, 0;
      book := Empty(|cfg.maxInflight|);
      new;
      EmptyKeeps<K, P, S>(cfg);
    }

    // ---- The idle list ----------------------------------------------------------------------

    /** Close the idle list over a slot that was just detached from it. */
    method IdlePatch(prev: Option<K>, next: Option<K>)
      requires prev.Some? ==> prev.value in keys
      requires next.Some? ==> next.value in keys
      modifies `keys, `idleHead, `idleTail
      ensures keys == Patched(old(keys), prev, next)
      ensures idleHead == if prev.Some? then old(idleHead) else next
      ensures idleTail == if next.Some? then old(idleTail) else prev
    {
      if prev.Some? {
        keys := keys[prev.value := keys[prev.value].(next := next)];
      } else {
        idleHead := next;
      }
      if next.Some? {
        keys := keys[next.value := keys[next.value].(prev := prev)];
      } else {
        idleTail := prev;
      }
    }

    /** Append a key that has just gone idle to the newest end. */
    method IdleLink(key: K, now: nat, ghost b: Book<K, P, S>)
      requires Tied(F(), b) && key in b.slots && key !in b.idle && b.slots[key].presence.Idle?
      modifies `keys, `idleHead, `idleTail, `idle
      ensures Tied(F(), GoIdle(b, key, now))
    {
      hide Tied;
      LinkTies(F(), b, key, now);
      var tail := idleTail;
      keys := keys[key := keys[key].(idleSince := now)];
      keys := keys[key := keys[key].(prev := tail)];
      if tail.Some? {
        keys := keys[tail.value := keys[tail.value].(next := Some(key))];
      } else {
        idleHead := Some(key);
      }
      idleTail := Some(key);
      idle := idle + 1;
    }

    /** Take a listed key's links and close the list over it. */
    method Unlink(key: K, ghost b: Book<K, P, S>)
      requires Tied(F(), b) && key in b.slots && key in b.idle
      modifies `keys, `idleHead, `idleTail, `idle
      ensures Tied(F(), b.(idle := Without(b.idle, key)))
    {
      hide Tied, Patched, Without;
      UnlinkTies(F(), b, key);
      var prev, next := keys[key].prev, keys[key].next;
      keys := keys[key := keys[key].(prev := None, next := None)];
      idle := idle - 1;
      IdlePatch(prev, next);
    }

    /** Detach the oldest idle key. */
    method IdleUnlinkHead(ghost b: Book<K, P, S>) returns (key: K)
      requires Tied(F(), b) && IdleListed(b) && idleHead.Some?
      modifies `keys, `idleHead, `idleTail, `idle
      ensures b.idle != [] && key == b.idle[0] == old(idleHead).value
      ensures Tied(F(), b.(idle := Without(b.idle, key)))
    {
      EndsListed(keys, idleHead, idleTail, idle, b.idle);
      hide Tied, Without;
      key := idleHead.value;
      Unlink(key, b);
    }

    // ---- Placing ----------------------------------------------------------------------------

    /** Set a slot's presence from its queue head, returning the ring it should
        join, or none when it has become idle. */
    method Settle(key: K, ghost b: Book<K, P, S>) returns (target: Option<nat>)
      requires slab.Valid() && Tied(F(), b) && key in b.slots
      modifies `keys
      ensures target == if b.slots[key].queue == [] then None else Some(b.slots[key].queue[0].cls)
      ensures Tied(F(), b.(slots := b.slots[key := b.slots[key].(
                presence := if target.Some? then Ready(target.value) else Idle)]))
    {
      hide Good, SlotsTied, IdleLinked;
      TiedSlot(F(), b, key);
      var head := slab.Front(keys[key].queue, key);
      var presence := if head.Some? then Ready(head.value.cls) else Idle;
      PresenceTies(F(), b, key, presence, keys[key].resident);
      keys := keys[key := keys[key].(presence := presence)];
      target := if head.Some? then Some(head.value.cls) else None;
    }

    /** Settle a key and put it where it belongs. */
    method Place(key: K, now: nat, ghost b: Book<K, P, S>)
      requires slab.Valid() && Tied(F(), b) && key in b.slots && key !in b.idle
      requires b.slots[key].queue != [] ==> b.slots[key].queue[0].cls < |b.ready|
      modifies `keys, `idleHead, `idleTail, `idle, `ready
      ensures Tied(F(), Spec.Place(b, key, now))
    {
      hide SlotsTied, IdleLinked;
      var target := Settle(key, b);
      SettledPlace(b, key, now);
      if target.Some? {
        ready := ready[target.value := ready[target.value] + [key]];
      } else {
        IdleLink(key, now, b.(slots := b.slots[key := b.slots[key].(presence := Idle)]));
      }
    }

    // ---- Admission ----------------------------------------------------------------------------

    /** An idle key leaves the idle list, if it was on it, and joins a ring. */
    method Rouse(key: K, cls: nat, resurrected: bool, ghost b: Book<K, P, S>)
      requires Tied(F(), b) && key in b.slots && cls < |b.ready| && (resurrected <==> key in b.idle)
      modifies `keys, `idleHead, `idleTail, `idle, `ready
      ensures Tied(F(), RousedBook(b, key, cls, resurrected))
    {
      hide Tied, Without;
      TiedSlot(F(), b, key);
      PresenceTies(F(), b, key, Ready(cls), keys[key].resident);
      keys := keys[key := keys[key].(presence := Ready(cls))];
      ghost var c := b.(slots := b.slots[key := b.slots[key].(presence := Ready(cls))]);
      if resurrected {
        Unlink(key, c);
        c := c.(idle := Without(c.idle, key));
      }
      TiedSlot(F(), c, key);
      ready := ready[cls := ready[cls] + [key]];
      ReadyTies(F().(ready := c.ready), c, ready);
    }

    method Push(key: K, item: Item<P>, ghost b: Book<K, P, S>)
      requires slab.Valid() && Tied(F(), b) && key in b.slots && pending < NIL
      modifies `keys, `pending, slab
      ensures slab.Valid() && Tied(F(), Enqueue(b, key, item))
    {
      hide Good, Tied;
      TiedSlot(F(), b, key);
      ghost var f := F();
      pending := pending + 1;
      var list := slab.PushBack(keys[key].queue, item, key);
      keys := keys[key := keys[key].(queue := list)];
      EnqueueTies(f, b, key, item, list);
    }

    /** Queue an item behind its key. */
    method Admit(key: K, item: Item<P>)
      requires Valid() && item.cls < |ready| && pending < NIL
      modifies this, slab
      ensures Valid() && item.cls < |old(book).ready|
      ensures key in old(book).slots && old(book).slots[key].presence.Idle? ==> old(book).slots[key].queue == []
      ensures book == Spec.Admit(old(book), key, item)
    {
      hide Good, Inv, Tied, Without, Spec.Admit, RousedBook;
      TiedSlot(F(), book, key);
      IdleMembers(book, cfg, key);
      AdmitKeeps(book, cfg, key, item);
      AdmitSteps(book, key, item);
      ghost var b := book;
      var resurrected := key in keys;
      if !resurrected {
        ColdTies(F(), b, key);
        keys := keys[key := ColdSlot()];
        b := b.(slots := b.slots[key := Cold()]);
      }
      Push(key, item, b);
      b := Enqueue(b, key, item);
      TiedSlot(F(), b, key);
      if keys[key].presence.Idle? {
        Rouse(key, item.cls, resurrected, b);
      }
      book := Spec.Admit(old(book), key, item);
    }

    // ---- Dispatch -------------------------------------------------------------------------------

    /** Take the head item off a key's queue, not yet accounting for it. */
    method TakeHead(key: K, ghost b: Book<K, P, S>) returns (item: Item<P>)
      requires slab.Valid() && Tied(F(), b) && key in b.slots && b.slots[key].queue != []
      modifies `keys, slab
      ensures slab.Valid() && item == b.slots[key].queue[0]
      ensures Tied(F().(live := F().live + 1), Dequeued(b, key))
    {
      hide Good, Tied;
      TiedSlot(F(), b, key);
      ghost var f := F();
      var list, front := slab.PopFront(keys[key].queue, key);
      DequeueTies(f, b, key, list);
      keys := keys[key := keys[key].(queue := list)];
      item := front.value;
    }

    /** Discard a key's next head, past `n` already discarded. */
    method DropHead(key: K, ghost b: Book<K, P, S>, ghost n: nat)
      requires slab.Valid() && key in b.slots && n < |b.slots[key].queue| && Tied(F(), Expire(b, key, n))
      modifies `keys, `pending, `expired, slab
      ensures slab.Valid() && Tied(F(), Expire(b, key, n + 1))
      ensures pending == old(pending) - 1
      ensures var item := b.slots[key].queue[n]; expired == old(expired) + [(key, item.cls, item.payload)]
    {
      hide Tied, Good, Expire;
      ExpireSoFar(b, key, n);
      var item := TakeHead(key, Expire(b, key, n));
      DropTies(F(), b, key, n);
      pending := pending - 1;
      expired := expired + [(key, item.cls, item.payload)];
    }

    /** Drop a key's expired heads of the class being served, then take its next
        head if that is of the class too. */
    method TakeLive(key: K, cls: nat, now: nat, ghost b: Book<K, P, S>) returns (taken: Option<Item<P>>)
      requires slab.Valid() && Tied(F(), b) && key in b.slots
      modifies `keys, `pending, `expired, slab
      ensures slab.Valid() && AfterTake(F(), b, key, cls, now, taken)
      ensures exists n: nat ::
                && Laws.Takes(b.slots[key].queue, cls, now, taken, n)
                && Discarded(key, b.slots[key].queue, cls, now, n, old(pending), pending, old(expired), expired)
    {
      hide Tied, Good, AfterTake, Expire, ExpiredHeads, Tagged, Discarded, Laws.Takes;
      ghost var q := b.slots[key].queue;
      ghost var n := 0;
      taken := None;
      ExpireNone(b, key);
      DiscardedNone(key, q, cls, now, pending, expired);
      assert q[0..] == q;
      while true
        invariant 0 <= n <= |q| && q == b.slots[key].queue && taken == None
        invariant slab.Valid() && Tied(F(), Expire(b, key, n))
        invariant Discarded(key, q, cls, now, n, old(pending), pending, old(expired), expired)
        invariant ExpiredHeads(q, cls, now) == n + ExpiredHeads(q[n..], cls, now)
        decreases |q| - n
      {
        ghost var done := Expire(b, key, n);
        ExpireSoFar(b, key, n);
        TiedSlot(F(), done, key);
        var head := slab.Front(keys[key].queue, key);
        if head.None? || head.value.cls != cls {
          NoneTaken(F(), b, key, cls, now, n);
          TakesAt(key, q, cls, now, n, old(pending), pending, old(expired), expired, None);
          return;
        }
        if Due(head.value, now) {
          HeadsMore(q, cls, now, n);
          DiscardedMore(key, q, cls, now, n, old(pending), pending, old(expired), expired);
          DropHead(key, b, n);
          n := n + 1;
        } else {
          var item := TakeHead(key, done);
          taken := Some(item);
          OneTaken(F(), b, key, cls, now, n);
          TakesAt(key, q, cls, now, n, old(pending), pending, old(expired), expired, taken);
          return;
        }
      }
    }

    /** Serve the front key of a ring: dispatch it, or put it where it now belongs. */
    method ServeFront(cls: nat, now: nat) returns (dispatch: Option<Dispatch<K, P, S>>)
      requires Valid() && Drainable(book) && cls < |book.ready| && book.ready[cls] != []
      requires |cfg.maxInflight| == |book.ready| && book.inflight[cls] < cfg.maxInflight[cls]
      modifies this, slab
      ensures Valid() && (book, dispatch) == TakeFront(old(book), cls, now)
    {
      hide Tied, Inv, Good, AfterTake, TakeFront, ExpiredHeads, Expire, Start, Spec.Place, Laws.Takes, Discarded;
      SettledSlot(F(), book, cfg);
      FrontKey(book, cfg, cls);
      TakeFrontSteps(book, cls, now);
      TakeFrontKeeps(book, cfg, cls, now);
      var key := ready[cls][0];
      TiedSlot(F(), book, key);
      ghost var popped := book.(ready := book.ready[cls := book.ready[cls][1..]]);
      ReadyTies(F(), book, popped.ready);
      ready := ready[cls := ready[cls][1..]];
      var state := keys[key].resident;
      var taken := TakeLive(key, cls, now, popped);
      TakeOutcome(F(), popped, key, cls, now, taken);
      ghost var n := ExpiredHeads(book.slots[key].queue, cls, now);
      ghost var rest := Expire(popped, key, n);
      if taken.Some? {
        StartTies(F(), rest, key, cls);
        keys := keys[key := keys[key].(presence := InFlight, resident := None)];
        inflight := inflight[cls := inflight[cls] + 1];
        dispatch := Some(Dispatch(key, cls, state, taken.value.payload));
      } else {
        Place(key, now, rest);
        dispatch := None;
      }
      book := TakeFront(book, cls, now).0;
    }

    /** Dispatch the next ready item of a class. */
    method Next(cls: nat, now: nat) returns (dispatch: Option<Dispatch<K, P, S>>)
      requires Valid() && cls < |ready|
      modifies this, slab
      ensures Valid() && Drainable(old(book)) && cls < |old(book).ready| == |cfg.maxInflight|
      ensures (book, dispatch) == Spec.Next(old(book), cfg, cls, now)
      ensures Laws.DispatchLaw(old(book), book, dispatch, cfg, cls, now)
    {
      hide Tied, Inv, Good, TakeFront, Drain, Laws.DispatchLaw;
      SettledSlot(F(), book, cfg);
      Laws.NextLaw(book, cfg, cls, now);
      if inflight[cls] >= cfg.maxInflight[cls] { return None; }
      ghost var b := book;
      while true
        invariant Valid() && Drainable(book) && |book.ready| == |b.ready| == |cfg.maxInflight|
        invariant cls < |ready| == |inflight| == |book.inflight| && ready == book.ready && inflight == book.inflight
        invariant inflight[cls] < cfg.maxInflight[cls]
        invariant Drain(book, cls, now) == Drain(b, cls, now)
        decreases |ready[cls]|
      {
        if ready[cls] == [] {
          DrainEmpty(book, cls, now);
          return None;
        }
        DrainStep(book, cls, now);
        FrontBudget(book, cls, now);
        dispatch := ServeFront(cls, now);
        SettledSlot(F(), book, cfg);
        if dispatch.Some? { return; }
      }
    }

    /** Take an item that was discarded at dispatch. */
    method PopExpired() returns (item: Option<(K, nat, P)>)
      requires Valid()
      modifies `expired, `book
      ensures Valid() && (book, item) == Spec.PopExpired(old(book))
    {
      hide SlotsTied, IdleLinked, Inv;
      PopExpiredKeeps(book, cfg);
      if expired == [] {
        item := None;
      } else {
        item := Some(expired[0]);
        expired := expired[1..];
      }
      book := Spec.PopExpired(book).0;
    }

    /** Return a key's state and re-place it in its ring, or retire it. */
    method Complete(key: K, cls: nat, kept: Option<S>, now: nat)
      requires Valid() && key in book.running && book.running[key] == cls
      modifies `keys, `idleHead, `idleTail, `idle, `ready, `inflight, `pending, `book
      ensures Valid() && key in old(book).slots && cls < |old(book).inflight|
      ensures old(book).slots[key].queue != [] ==> old(book).slots[key].queue[0].cls < |old(book).ready|
      ensures book == Spec.Complete(old(book), key, cls, kept, now)
    {
      hide Tied, Inv, Good, Spec.Place;
      IdleMembers(book, cfg, key);
      CompleteKeeps(book, cfg, key, cls, kept, now);
      ReturnTies(F(), book, key, cls, kept);
      inflight := inflight[cls := inflight[cls] - 1];
      pending := pending - 1;
      keys := keys[key := keys[key].(resident := kept)];
      Place(key, now, Returned(book, key, cls, kept));
      book := Spec.Complete(book, key, cls, kept, now);
    }

    // ---- Eviction ---------------------------------------------------------------------------------

    /** Forget a key with nothing queued. */
    method DropKey(key: K, ghost b: Book<K, P, S>)
      requires slab.Valid() && Tied(F(), b) && key in b.slots && key !in b.idle && b.slots[key].queue == []
      modifies `keys
      ensures Tied(F(), b.(slots := b.slots - {key}))
    {
      hide Tied, Good;
      TiedSlot(F(), b, key);
      EmptyHandle(slab.nodes, slab.free, slab.track, keys[key].queue, key);
      DropKeyTies(F(), b, key);
      keys := keys - {key};
    }

    /** Quiesce a key already off the idle list and hand back its state to flush,
        or drop the key outright when it has none. */
    method Release(key: K, ghost b: Book<K, P, S>) returns (out: seq<(K, S)>)
      requires slab.Valid() && Tied(F(), b) && key in b.slots && key !in b.idle && b.slots[key].queue == []
      modifies `keys, `evicting
      ensures Tied(F(), Spec.Release(b, key).0) && out == Spec.Release(b, key).1
    {
      hide Tied;
      TiedSlot(F(), b, key);
      var state := keys[key].resident;
      if state.Some? {
        PresenceTies(F(), b, key, Evicting, None);
        keys := keys[key := keys[key].(presence := Evicting, resident := None)];
        EvictingTies(F(), b.(slots := b.slots[key := b.slots[key].(presence := Evicting, resident := None)]),
          evicting + 1);
        evicting := evicting + 1;
        out := [(key, state.value)];
      } else {
        DropKey(key, b);
        out := [];
      }
    }

    /** Release the key at the head of the idle list. */
    method ReleaseHead() returns (out: seq<(K, S)>)
      requires Valid() && idleHead.Some?
      modifies `keys, `idleHead, `idleTail, `idle, `evicting, `book
      ensures Valid() && IdleListed(old(book)) && old(book).idle != []
      ensures (book, out) == ReleaseOldest(old(book))
    {
      hide Tied, Inv, Good, Without, Spec.Release, IdleListed;
      SizesAgree(F(), book);
      ReleaseListed(book, cfg);
      OldestCut(book);
      IdleMembers(book, cfg, book.idle[0]);
      var key := IdleUnlinkHead(book);
      out := Release(key, book.(idle := Without(book.idle, key)));
      book := ReleaseOldest(book).0;
    }

    /** Collect keys whose resident state should be flushed and released. */
    method Evict(now: nat) returns (out: seq<(K, S)>)
      requires Valid()
      modifies `keys, `idleHead, `idleTail, `idle, `evicting, `book
      ensures Valid() && IdleListed(old(book))
      ensures (book, out) == Spec.Evict(old(book), cfg, now)
      ensures exists m: nat :: Theorems.Swept(old(book), cfg, now, cfg.evictIters, book, out, m)
    {
      hide Tied, Inv, Good, ReleaseOldest, Sweep, IdleListed, Theorems.Swept;
      out := [];
      ReleaseListed(book, cfg);
      ghost var m := Theorems.SweepReleases(book, cfg, now, cfg.evictIters);
      ghost var b := book;
      var left := cfg.evictIters;
      AppendAssoc([], [], Sweep(book, cfg, now, left).1);
      while left > 0
        invariant Valid() && IdleListed(b) && IdleListed(book)
        invariant Sweep(b, cfg, now, cfg.evictIters).0 == Sweep(book, cfg, now, left).0
        invariant Sweep(b, cfg, now, cfg.evictIters).1 == out + Sweep(book, cfg, now, left).1
      {
        SizesAgree(F(), book);
        ReleaseListed(book, cfg);
        SweepStep(book, cfg, now, left);
        AppendAssoc(out, [], []);
        if idleHead.None? { return; }
        TiedSlot(F(), book, idleHead.value);
        IdleMembers(book, cfg, idleHead.value);
        var since := keys[idleHead.value].idleSince;
        var idleLongEnough := IdleFor(now, since) >= cfg.evictAfter;
        var resident := |keys| - evicting;
        var overCapacity := cfg.maxResident.Some? && resident > cfg.maxResident.value;
        if !idleLongEnough && !overCapacity { return; }
        var one := ReleaseHead();
        ReleaseListed(book, cfg);
        left := left - 1;
        AppendAssoc(out, one, Sweep(book, cfg, now, left).1);
        out := out + one;
      }
      SweepNothing(book, cfg, now);
      AppendAssoc(out, [], []);
    }

    /** Flush and release every resident key at once. */
    method EvictAll() returns (out: seq<(K, S)>)
      requires Valid()
      modifies `keys, `idleHead, `idleTail, `idle, `evicting, `book
      ensures Valid() && IdleListed(old(book))
      ensures (book, out) == Spec.EvictAll(old(book))
    {
      hide Tied, Inv, Good, ReleaseOldest, Spec.EvictAll, IdleListed;
      out := [];
      ReleaseListed(book, cfg);
      EvictAllStep(book);
      SizesAgree(F(), book);
      AppendAssoc([], [], Spec.EvictAll(book).1);
      ghost var b := book;
      while idleHead.Some?
        invariant Valid() && IdleListed(b) && IdleListed(book)
        invariant idleHead.None? <==> book.idle == []
        invariant book.idle == [] ==> Spec.EvictAll(book) == (book, [])
        invariant Spec.EvictAll(b).0 == Spec.EvictAll(book).0
        invariant Spec.EvictAll(b).1 == out + Spec.EvictAll(book).1
        decreases |book.idle|
      {
        ReleaseListed(book, cfg);
        EvictAllStep(book);
        var one := ReleaseHead();
        ReleaseListed(book, cfg);
        EvictAllStep(book);
        SizesAgree(F(), book);
        AppendAssoc(out, one, Spec.EvictAll(book).1);
        out := out + one;
      }
      AppendAssoc(out, [], []);
    }

    /** A flushed key goes for good, or goes back to its queued work. */
    method Vacate(key: K, now: nat, ghost b: Book<K, P, S>)
      requires slab.Valid() && Tied(F(), b) && key in b.slots && key !in b.idle
      requires b.slots[key].queue != [] ==> b.slots[key].queue[0].cls < |b.ready|
      modifies `keys, `idleHead, `idleTail, `idle, `ready
      ensures Tied(F(), if b.slots[key].queue == [] then b.(slots := b.slots - {key}) else Spec.Place(b, key, now))
    {
      hide Tied, Good, Spec.Place;
      TiedSlot(F(), b, key);
      EmptyHandle(slab.nodes, slab.free, slab.track, keys[key].queue, key);
      if keys[key].queue.len == 0 {
        DropKey(key, b);
      } else {
        Place(key, now, b);
      }
    }

    /** Release a key quiesced by eviction once its flush finished. */
    method FinishEvict(key: K, now: nat)
      requires Valid() && key in book.slots && book.slots[key].presence.Evicting?
      modifies `keys, `idleHead, `idleTail, `idle, `ready, `evicting, `book
      ensures Valid()
      ensures old(book).slots[key].queue != [] ==> old(book).slots[key].queue[0].cls < |old(book).ready|
      ensures book == Spec.FinishEvict(old(book), key, now)
    {
      hide Tied, Inv, Good, Spec.Place, Spec.FinishEvict;
      FinishFacts(book, cfg, key, now);
      EvictingTies(F(), book, evicting - 1);
      evicting := evicting - 1;
      Vacate(key, now, book.(evicting := evicting));
      book := Spec.FinishEvict(book, key, now);
    }
  }
}
