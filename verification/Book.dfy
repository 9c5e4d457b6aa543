/** The scheduler's book on plain values: per-class ready rings, one FIFO per
    key, exclusive hand-off of resident state, expiry at dispatch, and an idle
    list ordered by the moment each key went idle. Times are nanoseconds. */
module Book {
  import opened Options

  datatype Presence = Idle | Ready(cls: nat) | InFlight | Evicting

  datatype Item<+P> = Item(cls: nat, expiresAt: Option<nat>, payload: P)

  datatype Slot<+P, +S> = Slot(resident: Option<S>, queue: seq<Item<P>>, presence: Presence, idleSince: nat)

  datatype Dispatch<+K, +P, +S> = Dispatch(key: K, cls: nat, state: Option<S>, payload: P)

  datatype Config = Config(maxInflight: seq<nat>, maxResident: Option<nat>, evictAfter: nat, evictIters: nat)

  datatype Book<K(==), P, S> = Book(
    slots: map<K, Slot<P, S>>,
    ready: seq<seq<K>>,
    idle: seq<K>,
    expired: seq<(K, nat, P)>,
    inflight: seq<int>,
    pending: int,
    evicting: int,
    /** The class each in-flight key was dispatched under. */
    running: map<K, nat>)

  // ---- Operations ----------------------------------------------------------------

  function Empty<K, P, S>(classes: nat): Book<K, P, S> {
    Book(map[], seq(classes, _ => []), [], [], seq(classes, _ => 0), 0, 0, map[])
  }

  function Cold<P, S>(): Slot<P, S> {
    Slot(None, [], Idle, 0)
  }

  function Without<K(==)>(xs: seq<K>, x: K): seq<K> {
    if xs == [] then [] else if xs[0] == x then Without(xs[1..], x) else [xs[0]] + Without(xs[1..], x)
  }

  /** Join the newest end of the idle list. */
  function GoIdle<K, P, S>(b: Book<K, P, S>, key: K, now: nat): Book<K, P, S>
    requires key in b.slots
  {
    b.(slots := b.slots[key := b.slots[key].(presence := Idle, idleSince := now)], idle := b.idle + [key])
  }

  /** Join the back of a class's ring. */
  function GoReady<K, P, S>(b: Book<K, P, S>, key: K, cls: nat): Book<K, P, S>
    requires key in b.slots && cls < |b.ready|
  {
    b.(slots := b.slots[key := b.slots[key].(presence := Ready(cls))],
       ready := b.ready[cls := b.ready[cls] + [key]])
  }

  /** Put a settled key where its queue head says: at the back of that class's
      ring, or at the newest end of the idle list when nothing is queued. */
  function Place<K, P, S>(b: Book<K, P, S>, key: K, now: nat): Book<K, P, S>
    requires key in b.slots
    requires b.slots[key].queue != [] ==> b.slots[key].queue[0].cls < |b.ready|
  {
    if b.slots[key].queue == [] then GoIdle(b, key, now)
    else GoReady(b, key, b.slots[key].queue[0].cls)
  }

  function Enqueue<K, P, S>(b: Book<K, P, S>, key: K, item: Item<P>): Book<K, P, S>
    requires key in b.slots
  {
    var slot := b.slots[key];
    b.(slots := b.slots[key := slot.(queue := slot.queue + [item])], pending := b.pending + 1)
  }

  function Admit<K, P, S>(b: Book<K, P, S>, key: K, item: Item<P>): Book<K, P, S>
    requires item.cls < |b.ready|
    requires key in b.slots && b.slots[key].presence.Idle? ==> b.slots[key].queue == []
  {
    if key !in b.slots then
      Place(Enqueue(b.(slots := b.slots[key := Cold()]), key, item), key, 0)
    else if b.slots[key].presence.Idle? then
      Place(Enqueue(b.(idle := Without(b.idle, key)), key, item), key, 0)
    else
      Enqueue(b, key, item)
  }

  predicate Due<P>(item: Item<P>, now: nat) {
    item.expiresAt.Some? && item.expiresAt.value <= now
  }

  /** How many items at the head of a queue are of `cls` and past their
      deadline. */
  function ExpiredHeads<P>(queue: seq<Item<P>>, cls: nat, now: nat): (n: nat)
    ensures n <= |queue|
    ensures forall i :: 0 <= i < n ==>
      queue[i].cls == cls && queue[i].expiresAt.Some? && queue[i].expiresAt.value <= now
    ensures n < |queue| && queue[n].cls == cls ==> queue[n].expiresAt.None? || now < queue[n].expiresAt.value
  {
    if queue != [] && queue[0].cls == cls && Due(queue[0], now)
    then 1 + ExpiredHeads(queue[1..], cls, now) else 0
  }

  /** Discard the expired class heads of a key that has left its ring. */
  function Expire<K, P, S>(b: Book<K, P, S>, key: K, n: nat): Book<K, P, S>
    requires key in b.slots && n <= |b.slots[key].queue|
  {
    var slot := b.slots[key];
    b.(slots := b.slots[key := slot.(queue := slot.queue[n..])],
       pending := b.pending - n,
       expired := b.expired + Tagged(key, slot.queue[..n]))
  }

  function Tagged<K, P>(key: K, items: seq<Item<P>>): seq<(K, nat, P)> {
    seq(|items|, i requires 0 <= i < |items| => (key, items[i].cls, items[i].payload))
  }

  /** Hand the head item of a key, and its resident state, to a dispatch. */
  function Start<K, P, S>(b: Book<K, P, S>, key: K, cls: nat): Book<K, P, S>
    requires key in b.slots && b.slots[key].queue != [] && cls < |b.inflight|
  {
    var slot := b.slots[key];
    b.(slots := b.slots[key := slot.(queue := slot.queue[1..], presence := InFlight, resident := None)],
       inflight := b.inflight[cls := b.inflight[cls] + 1],
       running := b.running[key := cls])
  }

  /** What `Next` and its pieces need of a book to be defined. */
  predicate Drainable<K, P, S>(b: Book<K, P, S>) {
    && |b.ready| == |b.inflight|
    && (forall c, i :: 0 <= c < |b.ready| && 0 <= i < |b.ready[c]| ==> b.ready[c][i] in b.slots)
    && (forall k, i :: k in b.slots && 0 <= i < |b.slots[k].queue| ==> b.slots[k].queue[i].cls < |b.ready|)
  }

  /** Pop the front key of a ring and drop its expired heads; dispatch it if an
      item of the class is left, otherwise put it where it now belongs. */
  function TakeFront<K, P, S>(b: Book<K, P, S>, cls: nat, now: nat)
    : (r: (Book<K, P, S>, Option<Dispatch<K, P, S>>))
    requires Drainable(b) && cls < |b.ready| && b.ready[cls] != []
  {
    var key := b.ready[cls][0];
    var slot := b.slots[key];
    var n := ExpiredHeads(slot.queue, cls, now);
    var popped := b.(ready := b.ready[cls := b.ready[cls][1..]]);
    var rest := Expire(popped, key, n);
    if n < |slot.queue| && slot.queue[n].cls == cls then
      (Start(rest, key, cls), Some(Dispatch(key, cls, slot.resident, slot.queue[n].payload)))
    else
      (Place(rest, key, now), None)
  }

  lemma TakeFrontShrinks<K, P, S>(b: Book<K, P, S>, cls: nat, now: nat)
    requires Drainable(b) && cls < |b.ready| && b.ready[cls] != []
    ensures var (b', d) := TakeFront(b, cls, now);
            && |b'.ready| == |b.ready| && b'.ready[cls] == b.ready[cls][1..]
            && Drainable(b')
  {
  }

  /** Dispatch the next ready item of a class. It terminates because a key whose
      class heads all expired never rejoins the ring being drained. */
  function Drain<K, P, S>(b: Book<K, P, S>, cls: nat, now: nat)
    : (r: (Book<K, P, S>, Option<Dispatch<K, P, S>>))
    requires Drainable(b) && cls < |b.ready|
    decreases |b.ready[cls]|
  {
    if b.ready[cls] == [] then (b, None)
    else
      TakeFrontShrinks(b, cls, now);
      var (b', d) := TakeFront(b, cls, now);
      if d.Some? then (b', d) else Drain(b', cls, now)
  }

  function Next<K, P, S>(b: Book<K, P, S>, cfg: Config, cls: nat, now: nat)
    : (r: (Book<K, P, S>, Option<Dispatch<K, P, S>>))
    requires Drainable(b) && cls < |b.ready| == |cfg.maxInflight|
  {
    if b.inflight[cls] >= cfg.maxInflight[cls] then (b, None) else Drain(b, cls, now)
  }

  function PopExpired<K, P, S>(b: Book<K, P, S>): (Book<K, P, S>, Option<(K, nat, P)>) {
    if b.expired == [] then (b, None) else (b.(expired := b.expired[1..]), Some(b.expired[0]))
  }

  /** Return a key's state, kept or dropped, and re-place the key. */
  function Complete<K, P, S>(b: Book<K, P, S>, key: K, cls: nat, kept: Option<S>, now: nat): Book<K, P, S>
    requires key in b.slots && cls < |b.inflight|
    requires b.slots[key].queue != [] ==> b.slots[key].queue[0].cls < |b.ready|
  {
    var back := b.(slots := b.slots[key := b.slots[key].(resident := kept)],
                   inflight := b.inflight[cls := b.inflight[cls] - 1],
                   pending := b.pending - 1,
                   running := b.running - {key});
    Place(back, key, now)
  }

  /** Quiesce a key just taken off the idle list and hand back its state, or drop
      the key outright when it has none. */
  function Release<K, P, S>(b: Book<K, P, S>, key: K): (Book<K, P, S>, seq<(K, S)>)
    requires key in b.slots
  {
    var slot := b.slots[key];
    match slot.resident
    case Some(state) =>
      (b.(slots := b.slots[key := slot.(presence := Evicting, resident := None)], evicting := b.evicting + 1),
       [(key, state)])
    case None =>
      (b.(slots := b.slots - {key}), [])
  }

  predicate IdleListed<K, P, S>(b: Book<K, P, S>) {
    && (forall i :: 0 <= i < |b.idle| ==> b.idle[i] in b.slots)
    && (forall i, j :: 0 <= i < j < |b.idle| ==> b.idle[i] != b.idle[j])
  }

  function IdleFor(now: nat, since: nat): nat {
    if now >= since then now - since else 0
  }

  predicate OldEnough<K, P, S>(b: Book<K, P, S>, cfg: Config, key: K, now: nat)
    requires key in b.slots
  {
    IdleFor(now, b.slots[key].idleSince) >= cfg.evictAfter
  }

  predicate OverCapacity<K, P, S>(b: Book<K, P, S>, cfg: Config) {
    cfg.maxResident.Some? && |b.slots| - b.evicting > cfg.maxResident.value
  }

  /** Release the oldest idle key. */
  function ReleaseOldest<K, P, S>(b: Book<K, P, S>): (Book<K, P, S>, seq<(K, S)>)
    requires IdleListed(b) && b.idle != []
  {
    Release(b.(idle := b.idle[1..]), b.idle[0])
  }

  /** One sweep: release from the oldest end while keys are old enough or the book
      is over capacity, at most `iters` of them. */
  function Sweep<K, P, S>(b: Book<K, P, S>, cfg: Config, now: nat, iters: nat): (Book<K, P, S>, seq<(K, S)>)
    requires IdleListed(b)
    decreases iters
  {
    if iters == 0 || b.idle == [] then (b, [])
    else if !OldEnough(b, cfg, b.idle[0], now) && !OverCapacity(b, cfg) then (b, [])
    else
      var (b', out) := ReleaseOldest(b);
      var (b'', more) := Sweep(b', cfg, now, iters - 1);
      (b'', out + more)
  }

  function Evict<K, P, S>(b: Book<K, P, S>, cfg: Config, now: nat): (Book<K, P, S>, seq<(K, S)>)
    requires IdleListed(b)
  {
    Sweep(b, cfg, now, cfg.evictIters)
  }

  function EvictAll<K, P, S>(b: Book<K, P, S>): (Book<K, P, S>, seq<(K, S)>)
    requires IdleListed(b)
    decreases |b.idle|
  {
    if b.idle == [] then (b, [])
    else
      var (b', out) := ReleaseOldest(b);
      var (b'', more) := EvictAll(b');
      (b'', out + more)
  }

  /** A flush finished: drop the key, or re-place it if work arrived meanwhile. */
  function FinishEvict<K, P, S>(b: Book<K, P, S>, key: K, now: nat): Book<K, P, S>
    requires key in b.slots
    requires b.slots[key].queue != [] ==> b.slots[key].queue[0].cls < |b.ready|
  {
    var done := b.(evicting := b.evicting - 1);
    if b.slots[key].queue == [] then done.(slots := b.slots - {key}) else Place(done, key, now)
  }
}
