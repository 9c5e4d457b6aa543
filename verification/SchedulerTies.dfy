/** How the scheduler's stored fields realise a book, operation by operation. */
module SchedulerTies {
  import opened Options
  import opened Book
  import opened BookInvariant
  import opened QueueSlab
  import opened SchedulerLinks

  /** The stored state: the scheduler's fields, and what its slab holds. */
  datatype Fields<!K(==), P, S> = Fields(
    keys: map<K, KSlot<K, S>>,
    queues: map<K, seq<Item<P>>>, lists: map<K, List>, live: nat,
    ready: seq<seq<K>>,
    head: Option<K>, tail: Option<K>, idle: int,
    expired: seq<(K, nat, P)>, inflight: seq<int>, pending: int, evicting: int)

  ghost predicate SlotTied<K, P, S>(ks: KSlot<K, S>, list: List, queue: seq<Item<P>>, slot: Slot<P, S>) {
    && ks.queue == list && slot == Slot(ks.resident, queue, ks.presence, ks.idleSince)
  }

  ghost predicate SlotsTied<K(!new), P, S>(keys: map<K, KSlot<K, S>>, queues: map<K, seq<Item<P>>>, lists: map<K, List>,
                                           slots: map<K, Slot<P, S>>) {
    && keys.Keys == slots.Keys
    && (forall k :: k in keys ==> SlotTied(keys[k], ListIn(lists, k), QueueIn(queues, k), slots[k]))
    && (forall k :: k !in keys ==> QueueIn(queues, k) == [] && ListIn(lists, k) == EMPTY_LIST)
  }

  ghost predicate CountsTied<K, P, S>(f: Fields<K, P, S>, b: Book<K, P, S>) {
    && f.ready == b.ready && f.expired == b.expired && f.inflight == b.inflight
    && f.pending == b.pending && f.evicting == b.evicting
    && f.live + |b.running| == f.pending
  }

  ghost predicate Tied<K(!new), P, S>(f: Fields<K, P, S>, b: Book<K, P, S>) {
    && SlotsTied(f.keys, f.queues, f.lists, b.slots)
    && IdleLinked(f.keys, f.head, f.tail, f.idle, b.idle)
    && CountsTied(f, b)
  }

  // ---- One slot at a time -------------------------------------------------------------------

  /** Only one owner's queue differs. */
  ghost predicate OnlyQueue<K(!new), P>(queues: map<K, seq<Item<P>>>, lists: map<K, List>,
                                        queues': map<K, seq<Item<P>>>, lists': map<K, List>, key: K) {
    forall k :: k != key ==> QueueIn(queues', k) == QueueIn(queues, k) && ListIn(lists', k) == ListIn(lists, k)
  }

  lemma TiedSlot<K(!new), P, S>(f: Fields<K, P, S>, b: Book<K, P, S>, key: K)
    requires Tied(f, b)
    ensures key in f.keys <==> key in b.slots
    ensures key in b.slots ==> SlotTied(f.keys[key], ListIn(f.lists, key), QueueIn(f.queues, key), b.slots[key])
    ensures key !in b.slots ==> QueueIn(f.queues, key) == [] && ListIn(f.lists, key) == EMPTY_LIST
    ensures CountsTied(f, b)
  {
  }

  /** Rewriting one slot, links aside, on both sides. */
  lemma SlotChange<K(!new), P, S>(keys: map<K, KSlot<K, S>>, queues: map<K, seq<Item<P>>>, lists: map<K, List>,
                                  slots: map<K, Slot<P, S>>, keys': map<K, KSlot<K, S>>,
                                  queues': map<K, seq<Item<P>>>, lists': map<K, List>, slot: Slot<P, S>, key: K)
    requires SlotsTied(keys, queues, lists, slots) && OnlyQueue(queues, lists, queues', lists', key)
    requires key in keys' && SlotTied(keys'[key], ListIn(lists', key), QueueIn(queues', key), slot)
    requires keys'.Keys == keys.Keys + {key}
    requires forall k :: k in keys && k != key ==> keys'[k] == keys[k].(prev := keys'[k].prev, next := keys'[k].next)
    ensures SlotsTied(keys', queues', lists', slots[key := slot])
  {
  }

  lemma SlotGone<K(!new), P, S>(keys: map<K, KSlot<K, S>>, queues: map<K, seq<Item<P>>>, lists: map<K, List>,
                                slots: map<K, Slot<P, S>>, key: K)
    requires SlotsTied(keys, queues, lists, slots)
    requires QueueIn(queues, key) == [] && ListIn(lists, key) == EMPTY_LIST
    ensures SlotsTied(keys - {key}, queues, lists, slots - {key})
  {
  }

  lemma SameLinks<K(!new), P, S>(f: Fields<K, P, S>, b: Book<K, P, S>, key: K, ks: KSlot<K, S>)
    requires IdleLinked(f.keys, f.head, f.tail, f.idle, b.idle)
    requires if key in f.keys then ks.prev == f.keys[key].prev && ks.next == f.keys[key].next
             else ks.prev == None && ks.next == None
    ensures IdleLinked(f.keys[key := ks], f.head, f.tail, f.idle, b.idle)
  {
    IdleInKeys(f.keys, f.head, f.tail, f.idle, b.idle);
    LinksFrame(f.keys, f.keys[key := ks], f.head, f.tail, f.idle, b.idle);
  }

  lemma IdleInKeys<K, S>(keys: map<K, KSlot<K, S>>, head: Option<K>, tail: Option<K>, count: int, xs: seq<K>)
    requires IdleLinked(keys, head, tail, count, xs)
    ensures forall k :: k in xs ==> k in keys
  {
  }

  /** Rewriting one slot without touching its links. */
  lemma Rewrite<K(!new), P, S>(f: Fields<K, P, S>, b: Book<K, P, S>, key: K, ks: KSlot<K, S>,
                               queues': map<K, seq<Item<P>>>, lists': map<K, List>, slot: Slot<P, S>)
    requires Tied(f, b) && OnlyQueue(f.queues, f.lists, queues', lists', key)
    requires SlotTied(ks, ListIn(lists', key), QueueIn(queues', key), slot)
    requires if key in f.keys then ks.prev == f.keys[key].prev && ks.next == f.keys[key].next
             else ks.prev == None && ks.next == None
    ensures SlotsTied(f.keys[key := ks], queues', lists', b.slots[key := slot])
    ensures IdleLinked(f.keys[key := ks], f.head, f.tail, f.idle, b.idle)
    ensures CountsTied(f, b)
  {
    hide SlotsTied, IdleLinked, CountsTied, OnlyQueue;
    SlotChange(f.keys, f.queues, f.lists, b.slots, f.keys[key := ks], queues', lists', slot, key);
    SameLinks(f, b, key, ks);
  }

  lemma SameQueues<K(!new), P>(queues: map<K, seq<Item<P>>>, lists: map<K, List>, key: K)
    ensures OnlyQueue(queues, lists, queues, lists, key)
  {
  }

  lemma OneQueue<K(!new), P>(queues: map<K, seq<Item<P>>>, lists: map<K, List>, key: K, queue: seq<Item<P>>, list: List)
    ensures OnlyQueue(queues, lists, queues[key := queue], lists[key := list], key)
    ensures QueueIn(queues[key := queue], key) == queue && ListIn(lists[key := list], key) == list
  {
  }

  // ---- Joining and leaving the idle list ----------------------------------------------------------

  function LinkedIdle<K, P, S>(f: Fields<K, P, S>, key: K, now: nat): Fields<K, P, S>
    requires key in f.keys && (f.tail.Some? ==> f.tail.value in f.keys && f.tail.value != key)
  {
    f.(keys := Appended(f.keys[key := f.keys[key].(idleSince := now)], f.tail, key),
       head := if f.tail.Some? then f.head else Some(key), tail := Some(key), idle := f.idle + 1)
  }

  lemma LinkTies<K(!new), P, S>(f: Fields<K, P, S>, b: Book<K, P, S>, key: K, now: nat)
    requires Tied(f, b) && key in b.slots && key !in b.idle && b.slots[key].presence.Idle?
    ensures key in f.keys && (f.tail.Some? ==> f.tail.value in f.keys && f.tail.value != key)
    ensures Tied(LinkedIdle(f, key, now), GoIdle(b, key, now))
  {
    hide SlotsTied, IdleLinked, Appended, OnlyQueue;
    TiedSlot(f, b, key);
    var ks := f.keys[key].(idleSince := now);
    var slot := b.slots[key].(presence := Idle, idleSince := now);
    SameQueues(f.queues, f.lists, key);
    Rewrite(f, b, key, ks, f.queues, f.lists, slot);
    AppendKeeps(f.keys[key := ks], f.head, f.tail, f.idle, b.idle, key);
    SlotChange(f.keys, f.queues, f.lists, b.slots, Appended(f.keys[key := ks], f.tail, key), f.queues, f.lists, slot,
      key);
  }

  function UnlinkedIdle<K, P, S>(f: Fields<K, P, S>, key: K): Fields<K, P, S>
    requires key in f.keys
    requires var (prev, next) := (f.keys[key].prev, f.keys[key].next);
      (prev.Some? ==> prev.value in f.keys && prev.value != key) &&
        (next.Some? ==> next.value in f.keys && next.value != key)
  {
    f.(keys := Detached(f.keys, key),
       head := if f.keys[key].prev.Some? then f.head else f.keys[key].next,
       tail := if f.keys[key].next.Some? then f.tail else f.keys[key].prev,
       idle := f.idle - 1)
  }

  lemma UnlinkTies<K(!new), P, S>(f: Fields<K, P, S>, b: Book<K, P, S>, key: K)
    requires Tied(f, b) && key in b.slots && key in b.idle
    ensures key in f.keys
    ensures var (prev, next) := (f.keys[key].prev, f.keys[key].next);
      && (prev.Some? ==> prev.value in f.keys && prev.value != key)
      && (next.Some? ==> next.value in f.keys && next.value != key)
    ensures Tied(UnlinkedIdle(f, key), b.(idle := Without(b.idle, key)))
  {
    hide SlotsTied, IdleLinked, Detached, OnlyQueue, Without;
    TiedSlot(f, b, key);
    DetachKeeps(f.keys, f.head, f.tail, f.idle, b.idle, key);
    SameQueues(f.queues, f.lists, key);
    SlotChange(f.keys, f.queues, f.lists, b.slots, Detached(f.keys, key), f.queues, f.lists, b.slots[key], key);
    assert b.slots[key := b.slots[key]] == b.slots;
  }
}
