/** Whole runs of the scheduler's book. A ledger beside the book records, per key,
    every item admitted and what became of it, and every resident state the
    caller asked to keep and to whom it was handed. */
module BookRuns {
  import opened Options
  import opened Sequences
  import opened Book
  import opened BookInvariant

  datatype Fate = Expired | Running | Completed

  datatype Handout<+S> = ToDispatch(state: S) | ToFlush(state: S)

  /** `lost` lists the items discarded at dispatch because their deadline had
      passed; the caller has collected the first `shed` of them. */
  datatype World<K(==), P, S> = World(
    book: Book<K, P, S>,
    clock: nat,
    admitted: map<K, seq<Item<P>>>,
    fates: map<K, seq<Fate>>,
    lost: seq<(K, nat, P)>,
    shed: nat,
    kept: map<K, seq<S>>,
    handed: map<K, seq<Handout<S>>>)

  datatype Op<+K, +P, +S> =
    | OpAdmit(key: K, item: Item<P>)
    | OpNext(cls: nat, now: nat)
    | OpPopExpired
    | OpComplete(key: K, kept: Option<S>, now: nat)
    | OpEvict(now: nat)
    | OpEvictAll
    | OpFinishEvict(key: K, now: nat)

  function Get<K, V>(m: map<K, seq<V>>, k: K): seq<V> {
    if k in m then m[k] else []
  }

  function Append<K, V>(m: map<K, seq<V>>, k: K, vs: seq<V>): map<K, seq<V>> {
    m[k := Get(m, k) + vs]
  }

  function Begin<K, P, S>(cfg: Config): World<K, P, S> {
    World(Empty(|cfg.maxInflight|), 0, map[], map[], [], 0, map[], map[])
  }

  // ---- Steps -------------------------------------------------------------------------

  function Given<S>(state: Option<S>, flush: bool): seq<Handout<S>> {
    if state.None? then [] else if flush then [ToFlush(state.value)] else [ToDispatch(state.value)]
  }

  function TakeFrontW<K, P, S>(w: World<K, P, S>, cls: nat, now: nat): World<K, P, S>
    requires Drainable(w.book) && cls < |w.book.ready| && w.book.ready[cls] != []
  {
    var key := w.book.ready[cls][0];
    var slot := w.book.slots[key];
    var n := ExpiredHeads(slot.queue, cls, now);
    var (b', d) := TakeFront(w.book, cls, now);
    w.(book := b',
       lost := w.lost + Tagged(key, slot.queue[..n]),
       fates := Append(w.fates, key, Repeat(Expired, n) + (if d.Some? then [Running] else [])),
       handed := Append(w.handed, key, if d.Some? then Given(d.value.state, false) else []))
  }

  function DrainW<K, P, S>(w: World<K, P, S>, cls: nat, now: nat): World<K, P, S>
    requires Drainable(w.book) && cls < |w.book.ready|
    decreases |w.book.ready[cls]|
  {
    if w.book.ready[cls] == [] then w
    else
      TakeFrontShrinks(w.book, cls, now);
      if TakeFront(w.book, cls, now).1.Some? then TakeFrontW(w, cls, now)
      else DrainW(TakeFrontW(w, cls, now), cls, now)
  }

  function ReleaseOldestW<K, P, S>(w: World<K, P, S>): World<K, P, S>
    requires IdleListed(w.book) && w.book.idle != []
  {
    var key := w.book.idle[0];
    w.(book := ReleaseOldest(w.book).0,
       handed := Append(w.handed, key, Given(w.book.slots[key].resident, true)))
  }

  function SweepW<K, P, S>(w: World<K, P, S>, cfg: Config, now: nat, iters: nat): World<K, P, S>
    requires IdleListed(w.book)
    decreases iters
  {
    if iters == 0 || w.book.idle == [] then w
    else if !OldEnough(w.book, cfg, w.book.idle[0], now) && !OverCapacity(w.book, cfg) then w
    else SweepW(ReleaseOldestW(w), cfg, now, iters - 1)
  }

  function EvictAllW<K, P, S>(w: World<K, P, S>): World<K, P, S>
    requires IdleListed(w.book)
    decreases |w.book.idle|
  {
    if w.book.idle == [] then w else EvictAllW(ReleaseOldestW(w))
  }

  /** What each operation asks of its caller: a class in range, a clock that does
      not run backwards, and a completion or a finished flush for a key that is
      in fact out. */
  ghost predicate Allowed<K, P, S>(w: World<K, P, S>, op: Op<K, P, S>) {
    match op
    case OpAdmit(_, item) => item.cls < |w.book.ready|
    case OpNext(cls, now) => cls < |w.book.ready| && w.clock <= now
    case OpPopExpired => true
    case OpComplete(key, _, now) => key in w.book.running && w.clock <= now
    case OpEvict(now) => w.clock <= now
    case OpEvictAll => true
    case OpFinishEvict(key, now) =>
      key in w.book.slots && w.book.slots[key].presence.Evicting? && w.clock <= now
  }

  function AdmitW<K, P, S>(w: World<K, P, S>, key: K, item: Item<P>): World<K, P, S>
    requires item.cls < |w.book.ready|
    requires key in w.book.slots && w.book.slots[key].presence.Idle? ==> w.book.slots[key].queue == []
  {
    w.(book := Admit(w.book, key, item), admitted := Append(w.admitted, key, [item]))
  }

  function NextW<K, P, S>(w: World<K, P, S>, cfg: Config, cls: nat, now: nat): World<K, P, S>
    requires Drainable(w.book) && cls < |w.book.ready| == |cfg.maxInflight|
  {
    if w.book.inflight[cls] >= cfg.maxInflight[cls] then w.(clock := now)
    else DrainW(w.(clock := now), cls, now)
  }

  function PopExpiredW<K, P, S>(w: World<K, P, S>): World<K, P, S> {
    w.(book := PopExpired(w.book).0, shed := if w.book.expired == [] then w.shed else w.shed + 1)
  }

  function CompleteW<K, P, S>(w: World<K, P, S>, key: K, kept: Option<S>, now: nat): World<K, P, S>
    requires key in w.book.running && key in w.book.slots && w.book.running[key] < |w.book.inflight|
    requires w.book.slots[key].queue != [] ==> w.book.slots[key].queue[0].cls < |w.book.ready|
  {
    w.(book := Complete(w.book, key, w.book.running[key], kept, now),
       clock := now,
       fates := w.fates[key := Settle(Get(w.fates, key))],
       kept := Append(w.kept, key, Held(kept)))
  }

  function FinishEvictW<K, P, S>(w: World<K, P, S>, key: K, now: nat): World<K, P, S>
    requires key in w.book.slots
    requires w.book.slots[key].queue != [] ==> w.book.slots[key].queue[0].cls < |w.book.ready|
  {
    w.(book := FinishEvict(w.book, key, now), clock := now)
  }

  /** One call of one operation. */
  ghost function Step<K, P, S>(w: World<K, P, S>, cfg: Config, op: Op<K, P, S>): World<K, P, S>
    requires Inv(w.book, cfg) && Allowed(w, op)
  {
    InvDrainable(w.book, cfg, {});
    match op
    case OpAdmit(key, item) =>
      AdmitKeeps(w.book, cfg, key, item);
      AdmitW(w, key, item)
    case OpNext(cls, now) =>
      NextKeeps(w.book, cfg, cls, now);
      NextW(w, cfg, cls, now)
    case OpPopExpired => PopExpiredW(w)
    case OpComplete(key, kept, now) =>
      CompleteKeeps(w.book, cfg, key, w.book.running[key], kept, now);
      CompleteW(w, key, kept, now)
    case OpEvict(now) => SweepW(w.(clock := now), cfg, now, cfg.evictIters)
    case OpEvictAll => EvictAllW(w)
    case OpFinishEvict(key, now) =>
      FinishEvictKeeps(w.book, cfg, key, now);
      FinishEvictW(w, key, now)
  }

  /** The last fate, that of the item in flight, becomes final. */
  function Settle(fates: seq<Fate>): seq<Fate> {
    if fates == [] then [] else fates[..|fates| - 1] + [Completed]
  }

  // ---- The ledger ----------------------------------------------------------------------

  /** The discarded items of one key. */
  function Only<K(==), P>(lost: seq<(K, nat, P)>, k: K): seq<(nat, P)> {
    if lost == [] then []
    else
      var (key, cls, payload) := lost[|lost| - 1];
      Only(lost[..|lost| - 1], k) + (if key == k then [(cls, payload)] else [])
  }

  /** The items whose fate was to expire. */
  function ExpiredItems<P>(items: seq<Item<P>>, fates: seq<Fate>): seq<(nat, P)>
    requires |fates| <= |items|
  {
    if fates == [] then []
    else
      var n := |fates| - 1;
      ExpiredItems(items, fates[..n]) + (if fates[n] == Expired then [(items[n].cls, items[n].payload)] else [])
  }

  function States<S>(handed: seq<Handout<S>>): seq<S> {
    seq(|handed|, i requires 0 <= i < |handed| => handed[i].state)
  }

  function Held<S>(state: Option<S>): seq<S> { if state.Some? then [state.value] else [] }

  ghost function ResidentOf<K, P, S>(slots: map<K, Slot<P, S>>, k: K): Option<S> {
    if k in slots then slots[k].resident else None
  }

  /** One key's account. Its items left the queue in admission order, each with
      one fate; at most the last of them is in flight, and is exactly when the
      key is. Its discarded items are the expired ones. And every state kept was
      handed out once, in order, or is the one still resident. */
  ghost predicate KeyOk<P, S>(queue: seq<Item<P>>, running: Option<nat>, resident: Option<S>,
                              admitted: seq<Item<P>>, fates: seq<Fate>, lost: seq<(nat, P)>,
                              kept: seq<S>, handed: seq<Handout<S>>) {
    && |fates| <= |admitted|
    && queue == admitted[|fates|..]
    && (forall i :: 0 <= i < |fates| - 1 ==> fates[i] != Running)
    && (running.Some? <==> fates != [] && fates[|fates| - 1] == Running)
    && (running.Some? ==> admitted[|fates| - 1].cls == running.value)
    && lost == ExpiredItems(admitted, fates)
    && kept == States(handed) + Held(resident)
  }

  ghost function RunningOf<K>(running: map<K, nat>, k: K): Option<nat> {
    if k in running then Some(running[k]) else None
  }

  ghost predicate Account<K, P, S>(w: World<K, P, S>, k: K) {
    KeyOk(QueueOf(w.book.slots, k), RunningOf(w.book.running, k), ResidentOf(w.book.slots, k),
          Get(w.admitted, k), Get(w.fates, k), Only(w.lost, k), Get(w.kept, k), Get(w.handed, k))
  }

  /** Idle keys in the order they went idle, none after the clock. */
  ghost predicate Stamped<K, P, S>(b: Book<K, P, S>, clock: nat) {
    && (forall i :: 0 <= i < |b.idle| ==> b.idle[i] in b.slots && b.slots[b.idle[i]].idleSince <= clock)
    && (forall i, j :: 0 <= i < j < |b.idle| && b.idle[i] in b.slots && b.idle[j] in b.slots ==>
          b.slots[b.idle[i]].idleSince <= b.slots[b.idle[j]].idleSince)
  }

  ghost predicate WorldOk<K(!new), P, S>(w: World<K, P, S>, cfg: Config) {
    && Inv(w.book, cfg)
    && (forall k :: Account(w, k))
    && w.shed <= |w.lost| && w.lost[w.shed..] == w.book.expired
    && Stamped(w.book, w.clock)
  }

  // ---- One key's account, step by step -----------------------------------------------

  lemma AccountPush<P, S>(queue: seq<Item<P>>, running: Option<nat>, resident: Option<S>, admitted: seq<Item<P>>,
                          fates: seq<Fate>, lost: seq<(nat, P)>, kept: seq<S>, handed: seq<Handout<S>>, item: Item<P>)
    requires KeyOk(queue, running, resident, admitted, fates, lost, kept, handed)
    ensures KeyOk(queue + [item], running, resident, admitted + [item], fates, lost, kept, handed)
  {
    ExpiredItemsPrefix(admitted, [item], fates);
  }

  lemma {:induction false} ExpiredItemsPrefix<P>(items: seq<Item<P>>, more: seq<Item<P>>, fates: seq<Fate>)
    requires |fates| <= |items|
    ensures ExpiredItems(items + more, fates) == ExpiredItems(items, fates)
  {
    if fates != [] { ExpiredItemsPrefix(items, more, fates[..|fates| - 1]); }
  }

  function Bare<P>(items: seq<Item<P>>): seq<(nat, P)> {
    seq(|items|, i requires 0 <= i < |items| => (items[i].cls, items[i].payload))
  }

  lemma {:induction false} ExpiredItemsMore<P>(items: seq<Item<P>>, fates: seq<Fate>, n: nat)
    requires |fates| + n <= |items|
    ensures ExpiredItems(items, fates + Repeat(Expired, n))
         == ExpiredItems(items, fates) + Bare(items[|fates|..|fates| + n])
  {
    var all := fates + Repeat(Expired, n);
    if n == 0 {
      assert all == fates;
    } else {
      ExpiredItemsMore(items, fates, n - 1);
      assert all[..|all| - 1] == fates + Repeat(Expired, n - 1);
      var slice := items[|fates|..|fates| + n];
      assert slice[..n - 1] == items[|fates|..|fates| + (n - 1)];
      assert Bare(slice) == Bare(slice[..n - 1]) + [(slice[n - 1].cls, slice[n - 1].payload)];
    }
  }

  lemma AccountExpire<P, S>(queue: seq<Item<P>>, resident: Option<S>, admitted: seq<Item<P>>,
                            fates: seq<Fate>, lost: seq<(nat, P)>, kept: seq<S>, handed: seq<Handout<S>>, n: nat)
    requires KeyOk(queue, None, resident, admitted, fates, lost, kept, handed) && n <= |queue|
    ensures KeyOk(queue[n..], None, resident, admitted, fates + Repeat(Expired, n), lost + Bare(queue[..n]), kept,
      handed)
  {
    ExpiredItemsMore(admitted, fates, n);
    assert admitted[|fates|..|fates| + n] == queue[..n];
  }

  lemma AccountStart<P, S>(queue: seq<Item<P>>, resident: Option<S>, admitted: seq<Item<P>>, fates: seq<Fate>,
                           lost: seq<(nat, P)>, kept: seq<S>, handed: seq<Handout<S>>, cls: nat)
    requires KeyOk(queue, None, resident, admitted, fates, lost, kept, handed)
    requires queue != [] && queue[0].cls == cls
    ensures KeyOk(queue[1..], Some(cls), None, admitted, fates + [Running], lost, kept, handed + Given(resident, false))
  {
  }

  lemma AccountComplete<P, S>(queue: seq<Item<P>>, cls: nat, admitted: seq<Item<P>>, fates: seq<Fate>,
                              lost: seq<(nat, P)>, kept: seq<S>, handed: seq<Handout<S>>, state: Option<S>)
    requires KeyOk(queue, Some(cls), None, admitted, fates, lost, kept, handed)
    ensures KeyOk(queue, None, state, admitted, Settle(fates), lost, kept + Held(state), handed)
  {
  }

  lemma AccountFlush<P, S>(queue: seq<Item<P>>, running: Option<nat>, resident: Option<S>, admitted: seq<Item<P>>,
                           fates: seq<Fate>, lost: seq<(nat, P)>, kept: seq<S>, handed: seq<Handout<S>>)
    requires KeyOk(queue, running, resident, admitted, fates, lost, kept, handed)
    ensures KeyOk(queue, running, None, admitted, fates, lost, kept, handed + Given(resident, true))
  {
  }

  // ---- Keys a step does not touch ---------------------------------------------------------

  lemma {:induction false} OnlyAppend<K, P>(lost: seq<(K, nat, P)>, key: K, items: seq<Item<P>>, k: K)
    ensures Only(lost + Tagged(key, items), k) == Only(lost, k) + (if k == key then Bare(items) else [])
  {
    var all := lost + Tagged(key, items);
    if items == [] {
      assert all == lost;
    } else {
      var n := |items| - 1;
      OnlyAppend(lost, key, items[..n], k);
      assert all[..|all| - 1] == lost + Tagged(key, items[..n]);
      assert Bare(items) == Bare(items[..n]) + [(items[n].cls, items[n].payload)];
    }
  }

  lemma OthersKeep<K, P, S>(w: World<K, P, S>, w': World<K, P, S>, key: K, k: K)
    requires Account(w, k) && k != key
    requires QueueOf(w'.book.slots, k) == QueueOf(w.book.slots, k)
    requires RunningOf(w'.book.running, k) == RunningOf(w.book.running, k)
    requires ResidentOf(w'.book.slots, k) == ResidentOf(w.book.slots, k)
    requires Get(w'.admitted, k) == Get(w.admitted, k) && Get(w'.fates, k) == Get(w.fates, k)
    requires Only(w'.lost, k) == Only(w.lost, k)
    requires Get(w'.kept, k) == Get(w.kept, k) && Get(w'.handed, k) == Get(w.handed, k)
    ensures Account(w', k)
  {
  }

  // ---- What each operation does to the slots ------------------------------------------------

  /** Only `key`'s slot and flight may differ. */
  ghost predicate Touches<K, P, S>(b: Book<K, P, S>, b': Book<K, P, S>, key: K) {
    && (forall k :: k in b.slots && k != key ==> k in b'.slots && b'.slots[k] == b.slots[k])
    && (forall k :: k in b'.slots && k != key ==> k in b.slots)
    && (forall k :: k in b.running && k != key ==> k in b'.running && b'.running[k] == b.running[k])
    && (forall k :: k in b'.running && k != key ==> k in b.running)
  }

  lemma AdmitShape<K, P, S>(b: Book<K, P, S>, key: K, item: Item<P>)
    requires item.cls < |b.ready| && (key in b.slots && b.slots[key].presence.Idle? ==> b.slots[key].queue == [])
    ensures var b' := Admit(b, key, item);
            && Touches(b, b', key)
            && key in b'.slots && QueueOf(b'.slots, key) == QueueOf(b.slots, key) + [item]
            && ResidentOf(b'.slots, key) == ResidentOf(b.slots, key)
            && b'.running == b.running && b'.expired == b.expired
  {
  }

  lemma TakeFrontShape<K, P, S>(b: Book<K, P, S>, cls: nat, now: nat)
    requires Drainable(b) && cls < |b.ready| && b.ready[cls] != []
    ensures var key := b.ready[cls][0];
            var slot := b.slots[key];
            var n := ExpiredHeads(slot.queue, cls, now);
            var (b', d) := TakeFront(b, cls, now);
            && Touches(b, b', key) && key in b'.slots
            && b'.expired == b.expired + Tagged(key, slot.queue[..n])
            && (d.Some? <==> n < |slot.queue| && slot.queue[n].cls == cls)
            && (d.Some? ==>
                  && d.value == Dispatch(key, cls, slot.resident, slot.queue[n].payload)
                  && b'.slots[key].queue == slot.queue[n + 1..] && b'.slots[key].resident == None
                  && key in b'.running && b'.running[key] == cls && b'.idle == b.idle
                  && b'.slots[key].idleSince == slot.idleSince)
            && (d.None? ==>
                  && b'.slots[key].queue == slot.queue[n..] && b'.slots[key].resident == slot.resident
                  && b'.running == b.running)
  {
    var key := b.ready[cls][0];
    var n := ExpiredHeads(b.slots[key].queue, cls, now);
    assert b.slots[key].queue[n..] != [] ==> b.slots[key].queue[n..][1..] == b.slots[key].queue[n + 1..];
  }

  // ---- Idle stamps -----------------------------------------------------------------------

  lemma Cut<K>(xs: seq<K>, i: nat, j: nat, x: nat)
    requires i <= j <= |xs| && x < i + (|xs| - j)
    ensures (xs[..i] + xs[j..])[x] == xs[if x < i then x else x + j - i]
    ensures x < i ==> (xs[..i] + xs[j..])[x] in xs[..i]
    ensures x >= i ==> (xs[..i] + xs[j..])[x] in xs[j..]
  {
  }

  /** Keys stay in the order they went idle when some of them leave the list. */
  lemma StampedCut<K, P, S>(b: Book<K, P, S>, b': Book<K, P, S>, key: K, clock: nat, i: nat, j: nat)
    requires Stamped(b, clock) && Touches(b, b', key)
    requires i <= j <= |b.idle| && key !in b.idle[..i] && key !in b.idle[j..]
    requires b'.idle == b.idle[..i] + b.idle[j..]
    ensures Stamped(b', clock)
  {
    forall x | 0 <= x < |b'.idle|
      ensures b'.idle[x] in b.slots && b'.slots[b'.idle[x]] == b.slots[b'.idle[x]]
      ensures b.slots[b'.idle[x]].idleSince <= clock
    {
      Cut(b.idle, i, j, x);
    }
    forall x, y | 0 <= x < y < |b'.idle|
      ensures b.slots[b'.idle[x]].idleSince <= b.slots[b'.idle[y]].idleSince
    {
      Cut(b.idle, i, j, x);
      Cut(b.idle, i, j, y);
    }
  }

  /** A key that goes idle now joins behind every key that did before. */
  lemma StampedJoin<K, P, S>(b: Book<K, P, S>, b': Book<K, P, S>, key: K, clock: nat, now: nat)
    requires Stamped(b, clock) && clock <= now && Touches(b, b', key) && key !in b.idle
    requires b'.idle == b.idle + [key] && key in b'.slots && b'.slots[key].idleSince == now
    ensures Stamped(b', now)
  {
  }

  lemma StampedSame<K, P, S>(b: Book<K, P, S>, b': Book<K, P, S>, key: K, clock: nat, now: nat)
    requires Stamped(b, clock) && clock <= now && Touches(b, b', key) && key !in b.idle && b'.idle == b.idle
    ensures Stamped(b', now)
  {
  }

  lemma {:induction false} WithoutIsCut<K>(xs: seq<K>, x: K) returns (i: nat, j: nat)
    requires Distinct(xs)
    ensures i <= j <= |xs| && x !in xs[..i] && x !in xs[j..] && Without(xs, x) == xs[..i] + xs[j..]
  {
    if xs == [] {
      i, j := 0, 0;
    } else if xs[0] == x {
      DropFirst(xs);
      WithoutAbsent(xs[1..], x);
      i, j := 0, 1;
    } else {
      assert Distinct(xs[1..]);
      var p, q := WithoutIsCut(xs[1..], x);
      i, j := p + 1, q + 1;
      assert xs[..i] == [xs[0]] + xs[1..][..p];
      assert xs[j..] == xs[1..][q..];
    }
  }

  lemma {:induction false} WithoutAbsent<K>(xs: seq<K>, x: K)
    requires x !in xs
    ensures Without(xs, x) == xs
  {
    if xs != [] { WithoutAbsent(xs[1..], x); }
  }

  // ---- Every step keeps the ledger ------------------------------------------------------------

  lemma TouchedElsewhere<K, P, S>(b: Book<K, P, S>, b': Book<K, P, S>, key: K, k: K)
    requires Touches(b, b', key) && k != key
    ensures QueueOf(b'.slots, k) == QueueOf(b.slots, k)
    ensures RunningOf(b'.running, k) == RunningOf(b.running, k)
    ensures ResidentOf(b'.slots, k) == ResidentOf(b.slots, k)
  {
  }

  /** Only `key`'s entries in the ledger may differ. */
  ghost predicate LedgerTouches<K(!new), P, S>(w: World<K, P, S>, w': World<K, P, S>, key: K) {
    forall k :: k != key ==>
      && Get(w'.admitted, k) == Get(w.admitted, k) && Get(w'.fates, k) == Get(w.fates, k)
      && Get(w'.kept, k) == Get(w.kept, k) && Get(w'.handed, k) == Get(w.handed, k)
      && Only(w'.lost, k) == Only(w.lost, k)
  }

  lemma AccountsKeep<K(!new), P, S>(w: World<K, P, S>, w': World<K, P, S>, key: K)
    requires forall k :: Account(w, k)
    requires Touches(w.book, w'.book, key) && LedgerTouches(w, w', key) && Account(w', key)
    ensures forall k :: Account(w', k)
  {
    hide KeyOk, Only, Touches;
    forall k ensures Account(w', k) {
      if k != key {
        assert Account(w, k);
        TouchedElsewhere(w.book, w'.book, key, k);
      }
    }
  }

  lemma AdmitWorld<K(!new), P, S>(w: World<K, P, S>, cfg: Config, key: K, item: Item<P>)
    requires WorldOk(w, cfg) && Allowed(w, OpAdmit(key, item))
    ensures WorldOk(Step(w, cfg, OpAdmit(key, item)), cfg)
  {
    hide KeyOk, InvHeld, Admit, Only, Stamped, Touches, QueueOf, ResidentOf, RunningOf;
    AdmitKeeps(w.book, cfg, key, item);
    var w' := AdmitW(w, key, item);
    AdmitShape(w.book, key, item);
    AdmitAccount(w, key, item);
    AccountsKeep(w, w', key);
    AdmitStamps(w.book, cfg, key, item, w.clock);
  }

  lemma AdmitAccount<K(!new), P, S>(w: World<K, P, S>, key: K, item: Item<P>)
    requires item.cls < |w.book.ready| && Account(w, key)
    requires key in w.book.slots && w.book.slots[key].presence.Idle? ==> w.book.slots[key].queue == []
    ensures Account(AdmitW(w, key, item), key)
  {
    hide KeyOk, Admit, Only, Touches;
    AdmitShape(w.book, key, item);
    AccountPush(QueueOf(w.book.slots, key), RunningOf(w.book.running, key), ResidentOf(w.book.slots, key),
                Get(w.admitted, key), Get(w.fates, key), Only(w.lost, key), Get(w.kept, key), Get(w.handed, key), item);
  }

  lemma AdmitStamps<K, P, S>(b: Book<K, P, S>, cfg: Config, key: K, item: Item<P>, clock: nat)
    requires Inv(b, cfg) && item.cls < |b.ready| && Stamped(b, clock)
    requires key in b.slots && b.slots[key].presence.Idle? ==> b.slots[key].queue == []
    ensures Stamped(Admit(b, key, item), clock)
  {
    hide AccountsOk, RingsOk, Stamped, Touches;
    var b' := Admit(b, key, item);
    AdmitShape(b, key, item);
    var i, j := WithoutIsCut(b.idle, key);
    if key in b.slots && b.slots[key].presence.Idle? {
      StampedCut(b, b', key, clock, i, j);
    } else {
      StampedSame(b, b', key, clock, clock);
    }
  }

  lemma TakeFrontWorld<K(!new), P, S>(w: World<K, P, S>, cfg: Config, cls: nat)
    requires WorldOk(w, cfg) && Drainable(w.book) && cls < |w.book.ready| == |cfg.maxInflight|
    requires w.book.ready[cls] != []
    requires w.book.inflight[cls] < cfg.maxInflight[cls]
    ensures WorldOk(TakeFrontW(w, cls, w.clock), cfg)
  {
    hide KeyOk, InvHeld, TakeFront, Only, Stamped, Touches, Bare, Tagged, Given, Repeat, ExpiredHeads, LedgerTouches,
         TakeFrontW;
    var w' := TakeFrontW(w, cls, w.clock);
    var key := w.book.ready[cls][0];
    TakeFrontKeeps(w.book, cfg, cls, w.clock);
    FrontNotRunning(w.book, cfg, cls);
    assert Account(w, key);
    TakeFrontAccount(w, cls, key, w.book.slots[key].queue, ExpiredHeads(w.book.slots[key].queue, cls, w.clock));
    TakeFrontLedger(w, cls);
    AccountsKeep(w, w', key);
    TakeFrontStamps(w.book, cfg, cls, w.clock);
  }

  lemma TakeFrontLedger<K(!new), P, S>(w: World<K, P, S>, cls: nat)
    requires Drainable(w.book) && cls < |w.book.ready| && w.book.ready[cls] != []
    requires w.shed <= |w.lost| && w.lost[w.shed..] == w.book.expired
    ensures var w' := TakeFrontW(w, cls, w.clock);
            && w'.book == TakeFront(w.book, cls, w.clock).0 && w'.clock == w.clock
            && w'.shed == w.shed <= |w'.lost| && w'.lost[w'.shed..] == w'.book.expired
            && Touches(w.book, w'.book, w.book.ready[cls][0])
            && LedgerTouches(w, w', w.book.ready[cls][0])
  {
    hide TakeFront, Only, Touches, Bare, Given, Repeat, ExpiredHeads, Tagged;
    var w' := TakeFrontW(w, cls, w.clock);
    var key := w.book.ready[cls][0];
    var queue := w.book.slots[key].queue;
    var n := ExpiredHeads(queue, cls, w.clock);
    TakeFrontShape(w.book, cls, w.clock);
    forall k ensures Only(w'.lost, k) == Only(w.lost, k) + (if k == key then Bare(queue[..n]) else []) {
      OnlyAppend(w.lost, key, queue[..n], k);
    }
  }

  lemma FrontNotRunning<K, P, S>(b: Book<K, P, S>, cfg: Config, cls: nat)
    requires Inv(b, cfg) && cls < |b.ready| && b.ready[cls] != []
    ensures b.ready[cls][0] in b.slots && b.ready[cls][0] !in b.running && b.ready[cls][0] !in b.idle
  {
    hide CountsOk, StateOk, ClassesOk;
    FrontIsReady(b, cls);
  }

  lemma TakeFrontAccount<K, P, S>(w: World<K, P, S>, cls: nat, key: K, queue: seq<Item<P>>, n: nat)
    requires Drainable(w.book) && cls < |w.book.ready| && w.book.ready[cls] != [] && key == w.book.ready[cls][0]
    requires queue == w.book.slots[key].queue && n == ExpiredHeads(queue, cls, w.clock)
    requires key in w.book.slots && Account(w, key) && key !in w.book.running
    ensures Account(TakeFrontW(w, cls, w.clock), key)
  {
    hide KeyOk, TakeFront, Only, Touches, Bare, Repeat, Given, Drainable, Tagged, ExpiredHeads;
    TakeFrontShape(w.book, cls, w.clock);
    OnlyAppend(w.lost, key, queue[..n], key);
    AccountTake(queue, w.book.slots[key].resident, Get(w.admitted, key), Get(w.fates, key), Only(w.lost, key),
                Get(w.kept, key), Get(w.handed, key), cls, n);
    var w' := TakeFrontW(w, cls, w.clock);
    if TakeFront(w.book, cls, w.clock).1.Some? {
      assert Get(w'.fates, key) == Get(w.fates, key) + (Repeat(Expired, n) + [Running]);
      assert Get(w'.handed, key) == Get(w.handed, key) + Given(w.book.slots[key].resident, false);
    } else {
      assert Get(w'.fates, key) == Get(w.fates, key) + (Repeat(Expired, n) + []);
      assert Get(w'.handed, key) == Get(w.handed, key) + [];
    }
  }

  lemma AccountTake<P, S>(queue: seq<Item<P>>, resident: Option<S>, admitted: seq<Item<P>>, fates: seq<Fate>,
                          lost: seq<(nat, P)>, kept: seq<S>, handed: seq<Handout<S>>, cls: nat, n: nat)
    requires KeyOk(queue, None, resident, admitted, fates, lost, kept, handed) && n <= |queue|
    ensures KeyOk(queue[n..], None, resident, admitted, fates + (Repeat(Expired, n) + []), lost + Bare(queue[..n]),
                  kept, handed + [])
    ensures n < |queue| && queue[n].cls == cls ==>
              KeyOk(queue[n + 1..], Some(cls), None, admitted, fates + (Repeat(Expired, n) + [Running]),
                    lost + Bare(queue[..n]), kept, handed + Given(resident, false))
  {
    hide KeyOk, Bare, Given;
    AccountExpire(queue, resident, admitted, fates, lost, kept, handed, n);
    assert fates + (Repeat(Expired, n) + []) == fates + Repeat(Expired, n);
    assert handed + [] == handed;
    if n < |queue| && queue[n].cls == cls {
      assert queue[n..][1..] == queue[n + 1..];
      AccountStart(queue[n..], resident, admitted, fates + Repeat(Expired, n), lost + Bare(queue[..n]), kept, handed,
        cls);
      assert fates + (Repeat(Expired, n) + [Running]) == fates + Repeat(Expired, n) + [Running];
    }
  }

  lemma TakeFrontStamps<K, P, S>(b: Book<K, P, S>, cfg: Config, cls: nat, now: nat)
    requires Inv(b, cfg) && Drainable(b) && cls < |b.ready| && b.ready[cls] != [] && Stamped(b, now)
    ensures Stamped(TakeFront(b, cls, now).0, now)
  {
    hide InvHeld, Stamped, Touches;
    var key, b' := b.ready[cls][0], TakeFront(b, cls, now).0;
    TakeFrontShape(b, cls, now);
    FrontNotRunning(b, cfg, cls);
    if b'.idle == b.idle {
      StampedSame(b, b', key, now, now);
    } else {
      StampedJoin(b, b', key, now, now);
    }
  }

  lemma {:induction false} DrainWorld<K(!new), P, S>(w: World<K, P, S>, cfg: Config, cls: nat)
    requires WorldOk(w, cfg) && Drainable(w.book) && cls < |w.book.ready| == |cfg.maxInflight|
    requires w.book.inflight[cls] < cfg.maxInflight[cls]
    ensures WorldOk(DrainW(w, cls, w.clock), cfg)
    decreases |w.book.ready[cls]|
  {
    hide WorldOk, TakeFront;
    if w.book.ready[cls] != [] {
      TakeFrontShrinks(w.book, cls, w.clock);
      TakeFrontWorld(w, cfg, cls);
      TakeFrontBudget(w.book, cls, w.clock);
      if TakeFront(w.book, cls, w.clock).1.None? {
        DrainWorld(TakeFrontW(w, cls, w.clock), cfg, cls);
      }
    }
  }

  lemma TickWorld<K(!new), P, S>(w: World<K, P, S>, cfg: Config, now: nat)
    requires WorldOk(w, cfg) && w.clock <= now
    ensures WorldOk(w.(clock := now), cfg)
  {
    hide KeyOk, InvHeld, Only;
    forall k ensures Account(w.(clock := now), k) { assert Account(w, k); }
  }

  lemma NextWorld<K(!new), P, S>(w: World<K, P, S>, cfg: Config, cls: nat, now: nat)
    requires WorldOk(w, cfg) && Allowed(w, OpNext(cls, now))
    ensures WorldOk(Step(w, cfg, OpNext(cls, now)), cfg)
  {
    hide Account, InvHeld, Stamped;
    NextKeeps(w.book, cfg, cls, now);
    TickWorld(w, cfg, now);
    SameLengths(w.book, cfg);
    if w.book.inflight[cls] < cfg.maxInflight[cls] {
      DrainWorld(w.(clock := now), cfg, cls);
    }
  }

  lemma SameLengths<K, P, S>(b: Book<K, P, S>, cfg: Config)
    requires Inv(b, cfg)
    ensures |b.ready| == |b.inflight| == |cfg.maxInflight|
  {
  }

  lemma ReleaseShape<K, P, S>(b: Book<K, P, S>)
    requires IdleListed(b) && b.idle != []
    ensures var key := b.idle[0];
            var b' := ReleaseOldest(b).0;
            && Touches(b, b', key) && key in b.slots
            && (key in b'.slots ==> b'.slots[key].queue == b.slots[key].queue && b'.slots[key].resident == None)
            && (key !in b'.slots ==> b.slots[key].resident == None)
            && b'.running == b.running && b'.expired == b.expired && b'.idle == b.idle[1..]
            && ReleaseOldest(b).1 == if b.slots[key].resident.Some? then [(key, b.slots[key].resident.value)] else []
  {
  }

  lemma ReleaseWorld<K(!new), P, S>(w: World<K, P, S>, cfg: Config)
    requires WorldOk(w, cfg) && IdleListed(w.book) && w.book.idle != []
    ensures WorldOk(ReleaseOldestW(w), cfg)
  {
    hide KeyOk, InvHeld, ReleaseOldest, Only, Stamped, Touches, Given;
    var w', key := ReleaseOldestW(w), w.book.idle[0];
    ReleaseOldestKeeps(w.book, cfg);
    ReleaseShape(w.book);
    assert Account(w, key);
    OldestIsEmpty(w.book, cfg);
    AccountFlush([], RunningOf(w.book.running, key), w.book.slots[key].resident, Get(w.admitted, key),
                 Get(w.fates, key), Only(w.lost, key), Get(w.kept, key), Get(w.handed, key));
    AccountsKeep(w, w', key);
    assert w.book.idle[1..] == w.book.idle[..0] + w.book.idle[1..];
    StampedCut(w.book, w'.book, key, w.clock, 0, 1);
  }

  lemma OldestIsEmpty<K, P, S>(b: Book<K, P, S>, cfg: Config)
    requires Inv(b, cfg) && b.idle != []
    ensures b.idle[0] in b.slots && b.slots[b.idle[0]].queue == [] && b.idle[0] !in b.idle[1..]
  {
  }

  lemma {:induction false} SweepWorld<K(!new), P, S>(w: World<K, P, S>, cfg: Config, now: nat, iters: nat)
    requires WorldOk(w, cfg) && IdleListed(w.book)
    ensures WorldOk(SweepW(w, cfg, now, iters), cfg)
    ensures SweepW(w, cfg, now, iters).book == Sweep(w.book, cfg, now, iters).0
    decreases iters
  {
    hide Account, InvHeld, Stamped, ReleaseOldest;
    if iters > 0 && w.book.idle != [] && (OldEnough(w.book, cfg, w.book.idle[0], now) || OverCapacity(w.book, cfg)) {
      ReleaseWorld(w, cfg);
      InvDrainable(ReleaseOldestW(w).book, cfg, {});
      SweepWorld(ReleaseOldestW(w), cfg, now, iters - 1);
    }
  }

  lemma {:induction false} EvictAllWorld<K(!new), P, S>(w: World<K, P, S>, cfg: Config)
    requires WorldOk(w, cfg) && IdleListed(w.book)
    ensures WorldOk(EvictAllW(w), cfg)
    decreases |w.book.idle|
  {
    hide Account, InvHeld, Stamped, ReleaseOldest;
    if w.book.idle != [] {
      ReleaseWorld(w, cfg);
      InvDrainable(ReleaseOldestW(w).book, cfg, {});
      ReleaseShape(w.book);
      EvictAllWorld(ReleaseOldestW(w), cfg);
    }
  }

  lemma PopExpiredWorld<K(!new), P, S>(w: World<K, P, S>, cfg: Config)
    requires WorldOk(w, cfg)
    ensures WorldOk(PopExpiredW(w), cfg)
  {
    hide KeyOk, InvHeld, Only;
    var w' := PopExpiredW(w);
    PopExpiredKeeps(w.book, cfg);
    forall k ensures Account(w', k) { assert Account(w, k); }
  }

  lemma CompleteShape<K, P, S>(b: Book<K, P, S>, key: K, cls: nat, kept: Option<S>, now: nat)
    requires key in b.slots && cls < |b.inflight|
    requires b.slots[key].queue != [] ==> b.slots[key].queue[0].cls < |b.ready|
    ensures var b' := Complete(b, key, cls, kept, now);
            && Touches(b, b', key) && key in b'.slots && key !in b'.running
            && b'.slots[key].queue == b.slots[key].queue && b'.slots[key].resident == kept
            && b'.expired == b.expired
            && (b'.idle == b.idle || (b'.idle == b.idle + [key] && b'.slots[key].idleSince == now))
  {
  }

  lemma CompleteWorld<K(!new), P, S>(w: World<K, P, S>, cfg: Config, key: K, kept: Option<S>, now: nat)
    requires WorldOk(w, cfg) && Allowed(w, OpComplete(key, kept, now))
    ensures WorldOk(Step(w, cfg, OpComplete(key, kept, now)), cfg)
  {
    hide Account, InvHeld, Complete, Only, Stamped, Touches, LedgerTouches;
    var cls := w.book.running[key];
    CompleteKeeps(w.book, cfg, key, cls, kept, now);
    CompleteShape(w.book, key, cls, kept, now);
    CompleteAccount(w, cfg, key, kept, now);
    CompleteOthers(w, key, kept, now);
    AccountsKeep(w, CompleteW(w, key, kept, now), key);
    CompleteStamps(w.book, cfg, key, kept, w.clock, now);
  }

  lemma CompleteOthers<K(!new), P, S>(w: World<K, P, S>, key: K, kept: Option<S>, now: nat)
    requires key in w.book.running && key in w.book.slots && w.book.running[key] < |w.book.inflight|
    requires w.book.slots[key].queue != [] ==> w.book.slots[key].queue[0].cls < |w.book.ready|
    ensures LedgerTouches(w, CompleteW(w, key, kept, now), key)
  {
    hide Complete, Only, Settle, Held;
  }

  lemma CompleteAccount<K(!new), P, S>(w: World<K, P, S>, cfg: Config, key: K, kept: Option<S>, now: nat)
    requires Inv(w.book, cfg) && Account(w, key) && key in w.book.running
    ensures key in w.book.slots && w.book.running[key] < |w.book.inflight|
    ensures w.book.slots[key].queue != [] ==> w.book.slots[key].queue[0].cls < |w.book.ready|
    ensures Account(CompleteW(w, key, kept, now), key)
  {
    hide KeyOk, InvHeld, Complete, Only, Stamped, Touches, Settle, Held;
    var cls := w.book.running[key];
    CompleteKeeps(w.book, cfg, key, cls, kept, now);
    CompleteShape(w.book, key, cls, kept, now);
    OutIsNotIdle(w.book, cfg, key);
    AccountComplete(w.book.slots[key].queue, cls, Get(w.admitted, key), Get(w.fates, key), Only(w.lost, key),
                    Get(w.kept, key), Get(w.handed, key), kept);
  }

  lemma CompleteStamps<K, P, S>(b: Book<K, P, S>, cfg: Config, key: K, kept: Option<S>, clock: nat, now: nat)
    requires Inv(b, cfg) && key in b.running && Stamped(b, clock) && clock <= now
    ensures key in b.slots && b.running[key] < |b.inflight|
    ensures b.slots[key].queue != [] ==> b.slots[key].queue[0].cls < |b.ready|
    ensures Stamped(Complete(b, key, b.running[key], kept, now), now)
  {
    hide PlacesOk, AccountsOk, Complete, Stamped, Touches;
    CompleteKeeps(b, cfg, key, b.running[key], kept, now);
    CompleteShape(b, key, b.running[key], kept, now);
    OutIsNotIdle(b, cfg, key);
    var b' := Complete(b, key, b.running[key], kept, now);
    if b'.idle == b.idle { StampedSame(b, b', key, clock, now); } else { StampedJoin(b, b', key, clock, now); }
  }

  lemma OutIsNotIdle<K, P, S>(b: Book<K, P, S>, cfg: Config, key: K)
    requires Inv(b, cfg) && (key in b.running || (key in b.slots && b.slots[key].presence.Evicting?))
    ensures key in b.slots && key !in b.idle && b.slots[key].resident == None
    ensures b.slots[key].presence.Evicting? ==> key !in b.running
  {
  }

  lemma FinishEvictShape<K, P, S>(b: Book<K, P, S>, key: K, now: nat)
    requires key in b.slots
    requires b.slots[key].queue != [] ==> b.slots[key].queue[0].cls < |b.ready|
    ensures var b' := FinishEvict(b, key, now);
            && Touches(b, b', key) && b'.running == b.running && b'.expired == b.expired && b'.idle == b.idle
            && QueueOf(b'.slots, key) == b.slots[key].queue
            && (key in b'.slots ==> b'.slots[key].resident == b.slots[key].resident)
  {
  }

  lemma FinishEvictWorld<K(!new), P, S>(w: World<K, P, S>, cfg: Config, key: K, now: nat)
    requires WorldOk(w, cfg) && Allowed(w, OpFinishEvict(key, now))
    ensures WorldOk(Step(w, cfg, OpFinishEvict(key, now)), cfg)
  {
    hide KeyOk, InvHeld, FinishEvict, Only, Stamped, Touches;
    FinishEvictKeeps(w.book, cfg, key, now);
    var w' := FinishEvictW(w, key, now);
    FinishEvictShape(w.book, key, now);
    OutIsNotIdle(w.book, cfg, key);
    assert Account(w, key);
    AccountsKeep(w, w', key);
    StampedSame(w.book, w'.book, key, w.clock, now);
  }

  /** Every operation keeps the structural invariant and every key's account. */
  lemma StepWorld<K(!new), P, S>(w: World<K, P, S>, cfg: Config, op: Op<K, P, S>)
    requires WorldOk(w, cfg) && Allowed(w, op)
    ensures WorldOk(Step(w, cfg, op), cfg)
  {
    hide Account, InvHeld, Stamped;
    InvDrainable(w.book, cfg, {});
    match op
    case OpAdmit(key, item) => AdmitWorld(w, cfg, key, item);
    case OpNext(cls, now) => NextWorld(w, cfg, cls, now);
    case OpPopExpired => PopExpiredWorld(w, cfg);
    case OpComplete(key, kept, now) => CompleteWorld(w, cfg, key, kept, now);
    case OpEvict(now) =>
      TickWorld(w, cfg, now);
      SweepWorld(w.(clock := now), cfg, now, cfg.evictIters);
    case OpEvictAll => EvictAllWorld(w, cfg);
    case OpFinishEvict(key, now) => FinishEvictWorld(w, cfg, key, now);
  }
}
