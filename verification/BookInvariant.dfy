/** The structural invariant of the scheduler's book, and that every operation
    keeps it. `held` is a key an operation has taken out of its place and not put
    back yet: everything below is said of the other keys. */
module BookInvariant {
  import opened Options
  import opened Sequences
  import opened Book

  // ---- Counting --------------------------------------------------------------------

  /** Every queued item, as its key and its place in that key's queue. */
  ghost function Queued<K, P, S>(slots: map<K, Slot<P, S>>): set<(K, nat)> {
    set k, i | k in slots && 0 <= i < |slots[k].queue| :: (k, i)
  }

  ghost function QueueOf<K, P, S>(slots: map<K, Slot<P, S>>, key: K): seq<Item<P>> {
    if key in slots then slots[key].queue else []
  }

  ghost function Positions<K>(key: K, n: nat): set<(K, nat)> {
    set i | 0 <= i < n :: (key, i)
  }

  lemma {:induction false} PositionsCount<K>(key: K, n: nat)
    ensures |Positions(key, n)| == n
  {
    if n > 0 {
      PositionsCount(key, n - 1);
      assert Positions(key, n) == Positions(key, n - 1) + {(key, n - 1)};
    } else {
      assert Positions(key, n) == {};
    }
  }

  ghost function Others<K, P, S>(slots: map<K, Slot<P, S>>, key: K): set<(K, nat)> {
    set k, i | k in slots && k != key && 0 <= i < |slots[k].queue| :: (k, i)
  }

  lemma QueuedSplit<K, P, S>(slots: map<K, Slot<P, S>>, key: K)
    ensures |Queued(slots)| == |Others(slots, key)| + |QueueOf(slots, key)|
  {
    assert Queued(slots) == Others(slots, key) + Positions(key, |QueueOf(slots, key)|);
    PositionsCount(key, |QueueOf(slots, key)|);
  }

  /** Changing one key's queue changes the number of queued items by as much as
      that queue's length. */
  lemma QueuedChange<K, P, S>(slots: map<K, Slot<P, S>>, slots': map<K, Slot<P, S>>, key: K)
    requires forall k :: k != key && k in slots ==> k in slots' && slots'[k].queue == slots[k].queue
    requires forall k :: k != key && k in slots' ==> k in slots
    ensures |Queued(slots')| - |QueueOf(slots', key)| == |Queued(slots)| - |QueueOf(slots, key)|
  {
    QueuedSplit(slots, key);
    QueuedSplit(slots', key);
    assert Others(slots, key) == Others(slots', key);
  }

  ghost function RunningIn<K>(running: map<K, nat>, cls: nat): set<K> {
    set k | k in running && running[k] == cls
  }

  ghost function Quiesced<K, P, S>(slots: map<K, Slot<P, S>>, held: set<K>): set<K> {
    set k | k in slots && k !in held && slots[k].presence.Evicting?
  }

  ghost function Flying<K, P, S>(slots: map<K, Slot<P, S>>, held: set<K>): set<K> {
    set k | k in slots && k !in held && slots[k].presence.InFlight?
  }

  // ---- The invariant -----------------------------------------------------------------

  /** A ring lists exactly the keys whose head item is of its class, once each. */
  ghost predicate RingsOk<K, P, S>(b: Book<K, P, S>, held: set<K>) {
    && (forall c :: 0 <= c < |b.ready| ==> Distinct(b.ready[c]))
    && (forall c, k :: 0 <= c < |b.ready| && k in b.ready[c] ==>
          k in b.slots && k !in held && b.slots[k].presence == Ready(c))
    && (forall k :: k in b.slots && k !in held && b.slots[k].presence.Ready? ==>
          var c := b.slots[k].presence.cls;
          c < |b.ready| && k in b.ready[c] && b.slots[k].queue != [] && b.slots[k].queue[0].cls == c)
  }

  /** The idle list holds exactly the idle keys, once each, and none is queued. */
  ghost predicate IdleOk<K, P, S>(b: Book<K, P, S>, held: set<K>) {
    && Distinct(b.idle)
    && (forall k :: k in b.idle ==> k in b.slots && k !in held && b.slots[k].presence.Idle?)
    && (forall k :: k in b.slots && k !in held && b.slots[k].presence.Idle? ==>
          k in b.idle && b.slots[k].queue == [])
  }

  /** In-flight counts are exact per class and within budget. */
  ghost predicate InFlightOk<K, P, S>(b: Book<K, P, S>, cfg: Config, held: set<K>) {
    && |b.inflight| == |b.ready| == |cfg.maxInflight|
    && b.running.Keys == Flying(b.slots, held)
    && (forall k :: k in b.running ==> b.running[k] < |b.ready|)
    && (forall c :: 0 <= c < |b.inflight| ==>
          b.inflight[c] == |RunningIn(b.running, c)| && b.inflight[c] <= cfg.maxInflight[c])
  }

  /** A key that gave its state up does not hold it. */
  ghost predicate StateOk<K, P, S>(b: Book<K, P, S>, held: set<K>) {
    forall k :: k in b.slots && k !in held && (b.slots[k].presence.InFlight? || b.slots[k].presence.Evicting?) ==>
      b.slots[k].resident == None
  }

  ghost predicate CountsOk<K, P, S>(b: Book<K, P, S>, held: set<K>) {
    && b.evicting == |Quiesced(b.slots, held)|
    && b.pending == |Queued(b.slots)| + |b.running|
  }

  ghost predicate ClassesOk<K, P, S>(b: Book<K, P, S>) {
    forall k, i :: k in b.slots && 0 <= i < |b.slots[k].queue| ==> b.slots[k].queue[i].cls < |b.ready|
  }

  /** Where keys are listed. */
  ghost predicate PlacesOk<K, P, S>(b: Book<K, P, S>, held: set<K>) {
    RingsOk(b, held) && IdleOk(b, held)
  }

  /** What is counted and who owns what. */
  ghost predicate AccountsOk<K, P, S>(b: Book<K, P, S>, cfg: Config, held: set<K>) {
    && InFlightOk(b, cfg, held)
    && StateOk(b, held)
    && CountsOk(b, held)
    && ClassesOk(b)
    && held <= b.slots.Keys
  }

  ghost predicate InvHeld<K, P, S>(b: Book<K, P, S>, cfg: Config, held: set<K>) {
    PlacesOk(b, held) && AccountsOk(b, cfg, held)
  }

  ghost predicate Inv<K, P, S>(b: Book<K, P, S>, cfg: Config) {
    InvHeld(b, cfg, {})
  }

  lemma InvDrainable<K, P, S>(b: Book<K, P, S>, cfg: Config, held: set<K>)
    requires InvHeld(b, cfg, held)
    ensures Drainable(b) && IdleListed(b)
  {
    hide CountsOk, StateOk;
    forall c, i | 0 <= c < |b.ready| && 0 <= i < |b.ready[c]| ensures b.ready[c][i] in b.slots {
      assert b.ready[c][i] in b.ready[c];
    }
    forall i | 0 <= i < |b.idle| ensures b.idle[i] in b.slots {
      assert b.idle[i] in b.idle;
    }
  }

  // ---- Listing ---------------------------------------------------------------------------

  lemma {:induction false} WithoutMembers<K>(xs: seq<K>, x: K)
    requires Distinct(xs)
    ensures Distinct(Without(xs, x))
    ensures forall y :: y in Without(xs, x) ==> y in xs && y != x
    ensures forall y :: y in xs && y != x ==> y in Without(xs, x)
  {
    if xs != [] {
      WithoutMembers(xs[1..], x);
      assert xs == [xs[0]] + xs[1..];
      assert xs[0] !in xs[1..];
    }
  }

  /** A key is listed in the same place in both books. */
  ghost predicate SamePlace<K, P, S>(b: Book<K, P, S>, held: set<K>, b': Book<K, P, S>, held': set<K>, k: K) {
    && (Listed(b, held, k) <==> Listed(b', held', k))
    && (Listed(b, held, k) ==>
          && b'.slots[k].presence == b.slots[k].presence
          && (b'.slots[k].queue == [] <==> b.slots[k].queue == [])
          && (b.slots[k].queue != [] ==> b'.slots[k].queue[0].cls == b.slots[k].queue[0].cls))
  }

  ghost predicate Listed<K, P, S>(b: Book<K, P, S>, held: set<K>, k: K) {
    k in b.slots && k !in held && (b.slots[k].presence.Ready? || b.slots[k].presence.Idle?)
  }

  lemma PlacesFrame<K, P, S>(b: Book<K, P, S>, held: set<K>, b': Book<K, P, S>, held': set<K>)
    requires PlacesOk(b, held) && b'.ready == b.ready && b'.idle == b.idle
    requires forall k :: k in b.slots ==> SamePlace(b, held, b', held', k)
    requires forall k :: k in b'.slots ==> SamePlace(b, held, b', held', k)
    ensures PlacesOk(b', held')
  {
    forall c, k | 0 <= c < |b'.ready| && k in b'.ready[c]
      ensures k in b'.slots && k !in held' && b'.slots[k].presence == Ready(c)
    {
      assert k in b.slots && b.slots[k].presence == Ready(c);
      assert SamePlace(b, held, b', held', k);
    }
    forall k | k in b'.idle ensures k in b'.slots && k !in held' && b'.slots[k].presence.Idle? {
      assert SamePlace(b, held, b', held', k);
    }
  }

  lemma GoReadyPlaces<K, P, S>(b: Book<K, P, S>, key: K, cls: nat)
    requires PlacesOk(b, {key}) && key in b.slots && cls < |b.ready|
    requires b.slots[key].queue != [] && b.slots[key].queue[0].cls == cls
    ensures PlacesOk(GoReady(b, key, cls), {})
  {
    var b' := GoReady(b, key, cls);
    var ring := b.ready[cls];
    assert key !in ring;
    forall c, k | 0 <= c < |b'.ready| && k in b'.ready[c]
      ensures k in b'.slots && b'.slots[k].presence == Ready(c)
    {
      if k == key {
      } else {
        assert k in b.ready[c];
      }
    }
    assert Distinct(ring + [key]);
  }

  lemma GoIdlePlaces<K, P, S>(b: Book<K, P, S>, key: K, now: nat)
    requires PlacesOk(b, {key}) && key in b.slots && b.slots[key].queue == []
    ensures PlacesOk(GoIdle(b, key, now), {})
  {
    var b' := GoIdle(b, key, now);
    assert key !in b.idle;
    forall c, k | 0 <= c < |b'.ready| && k in b'.ready[c]
      ensures k in b'.slots && b'.slots[k].presence == Ready(c)
    {
      assert k in b.ready[c];
    }
  }

  lemma FrontIsReady<K, P, S>(b: Book<K, P, S>, cls: nat)
    requires RingsOk(b, {}) && cls < |b.ready| && b.ready[cls] != []
    ensures var key := b.ready[cls][0];
            key in b.slots && b.slots[key].presence == Ready(cls)
            && b.slots[key].queue != [] && b.slots[key].queue[0].cls == cls
    ensures Distinct(b.ready[cls])
  {
  }

  lemma HoldRingRings<K, P, S>(b: Book<K, P, S>, cls: nat, rest: seq<K>)
    requires RingsOk(b, {}) && cls < |b.ready| && b.ready[cls] != []
    requires Distinct(rest) && b.ready[cls][0] !in rest
    requires forall y :: y in rest ==> y in b.ready[cls]
    requires forall y :: y in b.ready[cls] ==> y == b.ready[cls][0] || y in rest
    ensures RingsOk(b.(ready := b.ready[cls := rest]), {b.ready[cls][0]})
  {
    var key := b.ready[cls][0];
    FrontIsReady(b, cls);
    var b' := b.(ready := b.ready[cls := rest]);
    forall c, k | 0 <= c < |b'.ready| && k in b'.ready[c]
      ensures k in b'.slots && k != key && b'.slots[k].presence == Ready(c)
    {
      assert k in b.ready[c];
    }
    forall k | k in b.slots && k != key && b.slots[k].presence.Ready?
      ensures b.slots[k].presence.cls < |b.ready| && k in b'.ready[b.slots[k].presence.cls]
    {
      assert k in b.ready[b.slots[k].presence.cls];
    }
  }

  lemma HoldRingPlaces<K, P, S>(b: Book<K, P, S>, cls: nat)
    requires PlacesOk(b, {}) && cls < |b.ready| && b.ready[cls] != []
    ensures PlacesOk(b.(ready := b.ready[cls := b.ready[cls][1..]]), {b.ready[cls][0]})
  {
    hide RingsOk;
    FrontIsReady(b, cls);
    DropFirst(b.ready[cls]);
    HoldRingRings(b, cls, b.ready[cls][1..]);
  }

  lemma HoldIdlePlaces<K, P, S>(b: Book<K, P, S>, key: K, idle': seq<K>)
    requires PlacesOk(b, {}) && key in b.idle
    requires Distinct(idle') && forall k :: k in b.slots ==> (k in idle' <==> k in b.idle && k != key)
    requires forall k :: k in idle' ==> k in b.idle
    ensures PlacesOk(b.(idle := idle'), {key})
  {
  }

  // ---- Accounts ------------------------------------------------------------------------

  /** Only queues, listings and the held key changed. */
  lemma AccountsFrame<K, P, S>(b: Book<K, P, S>, cfg: Config, held: set<K>, b': Book<K, P, S>, held': set<K>, key: K)
    requires AccountsOk(b, cfg, held) && held' <= b'.slots.Keys
    requires |b'.ready| == |b.ready| && b'.inflight == b.inflight && b'.running == b.running
    requires b'.evicting == b.evicting
    requires b'.pending - |QueueOf(b'.slots, key)| == b.pending - |QueueOf(b.slots, key)|
    requires forall k :: k != key && k in b.slots ==> k in b'.slots && b'.slots[k] == b.slots[k]
    requires forall k :: k != key && k in b'.slots ==> k in b.slots
    requires forall k :: k != key ==> (k in held <==> k in held')
    requires !Owned(b, held, key) || Owned(b', held', key)
    requires Owned(b', held', key) ==>
               Owned(b, held, key) && b'.slots[key].presence == b.slots[key].presence
               && b'.slots[key].resident == b.slots[key].resident
    requires key in b'.slots ==> forall i :: 0 <= i < |b'.slots[key].queue| ==> b'.slots[key].queue[i].cls < |b'.ready|
    ensures AccountsOk(b', cfg, held')
  {
    QueuedChange(b.slots, b'.slots, key);
    assert Flying(b'.slots, held') == Flying(b.slots, held);
    assert Quiesced(b'.slots, held') == Quiesced(b.slots, held);
  }

  /** A key whose state is out with someone. */
  ghost predicate Owned<K, P, S>(b: Book<K, P, S>, held: set<K>, k: K) {
    k in b.slots && k !in held && (b.slots[k].presence.InFlight? || b.slots[k].presence.Evicting?)
  }

  // ---- Operations ------------------------------------------------------------------------

  /** Putting the held key back where its queue head says. */
  lemma PlaceKeeps<K, P, S>(b: Book<K, P, S>, cfg: Config, key: K, now: nat)
    requires InvHeld(b, cfg, {key})
    ensures key in b.slots && (b.slots[key].queue != [] ==> b.slots[key].queue[0].cls < |b.ready|)
    ensures Inv(Place(b, key, now), cfg)
  {
    hide PlacesOk;
    HeldClass(b, cfg, key);
    if b.slots[key].queue == [] {
      GoIdlePlaces(b, key, now);
    } else {
      GoReadyPlaces(b, key, b.slots[key].queue[0].cls);
    }
    hide AccountsOk;
    AccountsFrame(b, cfg, {key}, Place(b, key, now), {}, key);
  }

  lemma HeldClass<K, P, S>(b: Book<K, P, S>, cfg: Config, key: K)
    requires AccountsOk(b, cfg, {key})
    ensures key in b.slots
    ensures forall i :: 0 <= i < |b.slots[key].queue| ==> b.slots[key].queue[i].cls < |b.ready|
  {
  }

  lemma AdmitHeld<K, P, S>(b: Book<K, P, S>, cfg: Config, key: K, item: Item<P>)
    requires InvHeld(b, cfg, {key}) && key in b.slots && item.cls < |b.ready|
    ensures var queued := Enqueue(b, key, item);
            queued.slots[key].queue[0].cls < |b.ready| && Inv(Place(queued, key, 0), cfg)
  {
    hide PlacesOk, AccountsOk;
    EnqueueHeld(b, cfg, key, item);
    PlaceKeeps(Enqueue(b, key, item), cfg, key, 0);
  }

  lemma HoldNew<K, P, S>(b: Book<K, P, S>, cfg: Config, key: K)
    requires Inv(b, cfg) && key !in b.slots
    ensures InvHeld(b.(slots := b.slots[key := Cold()]), cfg, {key})
  {
    hide AccountsOk, RingsOk, IdleOk;
    KnownClasses(b, cfg, {}, key);
    var b1 := b.(slots := b.slots[key := Cold()]);
    PlacesFrame(b, {}, b1, {key});
    AccountsFrame(b, cfg, {}, b1, {key}, key);
  }

  lemma HoldIdle<K, P, S>(b: Book<K, P, S>, cfg: Config, key: K, idle': seq<K>)
    requires Inv(b, cfg) && key in b.slots && b.slots[key].presence.Idle?
    requires Distinct(idle') && forall k :: k in b.slots ==> (k in idle' <==> k in b.idle && k != key)
    requires forall k :: k in idle' ==> k in b.idle
    ensures InvHeld(b.(idle := idle'), cfg, {key})
  {
    hide AccountsOk, RingsOk;
    KnownClasses(b, cfg, {}, key);
    HoldIdlePlaces(b, key, idle');
    AccountsFrame(b, cfg, {}, b.(idle := idle'), {key}, key);
  }

  lemma IdleIsEmpty<K, P, S>(b: Book<K, P, S>, key: K)
    requires PlacesOk(b, {}) && key in b.slots && b.slots[key].presence.Idle?
    ensures key in b.idle && b.slots[key].queue == [] && Distinct(b.idle)
  {
  }

  /** Admission: the item joins the back of its key's queue, and only an idle or
      new key joins a ring. */
  lemma AdmitKeeps<K, P, S>(b: Book<K, P, S>, cfg: Config, key: K, item: Item<P>)
    requires Inv(b, cfg) && item.cls < |b.ready|
    ensures key in b.slots && b.slots[key].presence.Idle? ==> b.slots[key].queue == []
    ensures Inv(Admit(b, key, item), cfg)
  {
    hide AccountsOk, RingsOk, IdleOk;
    KnownClasses(b, cfg, {}, key);
    if key !in b.slots {
      HoldNew(b, cfg, key);
      AdmitHeld(b.(slots := b.slots[key := Cold()]), cfg, key, item);
    } else if b.slots[key].presence.Idle? {
      IdleIsEmpty(b, key);
      WithoutMembers(b.idle, key);
      HoldIdle(b, cfg, key, Without(b.idle, key));
      AdmitHeld(b.(idle := Without(b.idle, key)), cfg, key, item);
    } else {
      AdmitBusy(b, cfg, key, item);
    }
  }

  lemma AdmitBusy<K, P, S>(b: Book<K, P, S>, cfg: Config, key: K, item: Item<P>)
    requires Inv(b, cfg) && item.cls < |b.ready| && key in b.slots && !b.slots[key].presence.Idle?
    ensures Inv(Enqueue(b, key, item), cfg)
  {
    hide AccountsOk;
    KnownClasses(b, cfg, {}, key);
    var b' := Enqueue(b, key, item);
    PlacesFrame(b, {}, b', {});
    AccountsFrame(b, cfg, {}, b', {}, key);
  }

  lemma KnownClasses<K, P, S>(b: Book<K, P, S>, cfg: Config, held: set<K>, key: K)
    requires AccountsOk(b, cfg, held)
    ensures |b.inflight| == |b.ready| == |cfg.maxInflight|
    ensures key in b.slots ==> forall i :: 0 <= i < |b.slots[key].queue| ==> b.slots[key].queue[i].cls < |b.ready|
    ensures held <= b.slots.Keys
  {
  }

  lemma EnqueueHeld<K, P, S>(b: Book<K, P, S>, cfg: Config, key: K, item: Item<P>)
    requires InvHeld(b, cfg, {key}) && key in b.slots && item.cls < |b.ready|
    ensures InvHeld(Enqueue(b, key, item), cfg, {key})
  {
    hide AccountsOk, RingsOk, IdleOk;
    KnownClasses(b, cfg, {key}, key);
    var b' := Enqueue(b, key, item);
    PlacesFrame(b, {key}, b', {key});
    AccountsFrame(b, cfg, {key}, b', {key}, key);
  }

  lemma ExpireHeld<K, P, S>(b: Book<K, P, S>, cfg: Config, key: K, n: nat)
    requires InvHeld(b, cfg, {key}) && key in b.slots && n <= |b.slots[key].queue|
    ensures InvHeld(Expire(b, key, n), cfg, {key})
  {
    hide AccountsOk, RingsOk, IdleOk;
    KnownClasses(b, cfg, {key}, key);
    var b' := Expire(b, key, n);
    PlacesFrame(b, {key}, b', {key});
    AccountsFrame(b, cfg, {key}, b', {key}, key);
  }

  lemma RunningAdd<K>(running: map<K, nat>, key: K, cls: nat, c: nat)
    requires key !in running
    ensures |RunningIn(running[key := cls], c)| == |RunningIn(running, c)| + (if c == cls then 1 else 0)
  {
    if c == cls {
      assert RunningIn(running[key := cls], c) == RunningIn(running, c) + {key};
    } else {
      assert RunningIn(running[key := cls], c) == RunningIn(running, c);
    }
  }

  lemma StartAccounts<K, P, S>(b: Book<K, P, S>, cfg: Config, key: K, cls: nat)
    requires AccountsOk(b, cfg, {key}) && key in b.slots && b.slots[key].queue != [] && cls < |b.inflight|
    requires |b.inflight| == |cfg.maxInflight| && b.inflight[cls] < cfg.maxInflight[cls]
    ensures AccountsOk(Start(b, key, cls), cfg, {})
  {
    hide CountsOk;
    var b' := Start(b, key, cls);
    assert key !in Flying(b.slots, {key});
    StartCounts(b, key, cls);
    assert Flying(b'.slots, {}) == Flying(b.slots, {key}) + {key};
    forall c | 0 <= c < |b'.inflight|
      ensures |RunningIn(b'.running, c)| == |RunningIn(b.running, c)| + (if c == cls then 1 else 0)
    {
      RunningAdd(b.running, key, cls, c);
    }
  }

  lemma StartCounts<K, P, S>(b: Book<K, P, S>, key: K, cls: nat)
    requires CountsOk(b, {key}) && key in b.slots && b.slots[key].queue != [] && cls < |b.inflight|
    requires key !in b.running
    ensures CountsOk(Start(b, key, cls), {})
  {
    var b' := Start(b, key, cls);
    QueuedChange(b.slots, b'.slots, key);
    assert Quiesced(b'.slots, {}) == Quiesced(b.slots, {key});
    assert |b'.running.Keys| == |b.running.Keys| + 1;
  }

  /** A dispatch takes one unit of its class's budget and owns the key alone. */
  lemma StartKeeps<K, P, S>(b: Book<K, P, S>, cfg: Config, key: K, cls: nat)
    requires InvHeld(b, cfg, {key}) && key in b.slots && b.slots[key].queue != [] && cls < |b.inflight|
    requires |b.inflight| == |cfg.maxInflight| && b.inflight[cls] < cfg.maxInflight[cls]
    ensures Inv(Start(b, key, cls), cfg)
  {
    hide RingsOk, IdleOk, AccountsOk;
    PlacesFrame(b, {key}, Start(b, key, cls), {});
    StartAccounts(b, cfg, key, cls);
  }

  /** Popping the front of a ring, whatever becomes of the key. */
  lemma TakeFrontKeeps<K, P, S>(b: Book<K, P, S>, cfg: Config, cls: nat, now: nat)
    requires Inv(b, cfg) && Drainable(b) && cls < |b.ready| == |cfg.maxInflight| && b.ready[cls] != []
    requires b.inflight[cls] < cfg.maxInflight[cls]
    ensures Inv(TakeFront(b, cls, now).0, cfg)
  {
    hide AccountsOk, RingsOk, IdleOk;
    var key := b.ready[cls][0];
    var popped := b.(ready := b.ready[cls := b.ready[cls][1..]]);
    FrontIsReady(b, cls);
    HoldRingPlaces(b, cls);
    KnownClasses(b, cfg, {}, key);
    AccountsFrame(b, cfg, {}, popped, {key}, key);
    var n := ExpiredHeads(b.slots[key].queue, cls, now);
    ExpireHeld(popped, cfg, key, n);
    var rest := Expire(popped, key, n);
    if n < |b.slots[key].queue| && b.slots[key].queue[n].cls == cls {
      StartKeeps(rest, cfg, key, cls);
    } else {
      PlaceKeeps(rest, cfg, key, now);
    }
  }

  lemma {:induction false} DrainKeeps<K, P, S>(b: Book<K, P, S>, cfg: Config, cls: nat, now: nat)
    requires Inv(b, cfg) && Drainable(b) && cls < |b.ready| == |cfg.maxInflight|
    requires b.inflight[cls] < cfg.maxInflight[cls]
    ensures Inv(Drain(b, cls, now).0, cfg)
    decreases |b.ready[cls]|
  {
    hide Inv, TakeFront;
    if b.ready[cls] != [] {
      TakeFrontShrinks(b, cls, now);
      TakeFrontKeeps(b, cfg, cls, now);
      var (b', d) := TakeFront(b, cls, now);
      if d.None? {
        TakeFrontBudget(b, cls, now);
        DrainKeeps(b', cfg, cls, now);
      }
    }
  }

  lemma TakeFrontBudget<K, P, S>(b: Book<K, P, S>, cls: nat, now: nat)
    requires Drainable(b) && cls < |b.ready| && b.ready[cls] != []
    ensures TakeFront(b, cls, now).1.None? ==> TakeFront(b, cls, now).0.inflight == b.inflight
  {
  }

  lemma NextKeeps<K, P, S>(b: Book<K, P, S>, cfg: Config, cls: nat, now: nat)
    requires Inv(b, cfg) && cls < |b.ready|
    ensures Drainable(b) && |b.ready| == |cfg.maxInflight|
    ensures Inv(Next(b, cfg, cls, now).0, cfg)
  {
    hide AccountsOk, PlacesOk;
    InvDrainable(b, cfg, {});
    ClassCount(b, cfg);
    if b.inflight[cls] < cfg.maxInflight[cls] {
      DrainKeeps(b, cfg, cls, now);
    }
  }

  lemma ClassCount<K, P, S>(b: Book<K, P, S>, cfg: Config)
    requires AccountsOk(b, cfg, {})
    ensures |b.inflight| == |b.ready| == |cfg.maxInflight|
  {
  }

  lemma RunningKey<K, P, S>(b: Book<K, P, S>, cfg: Config, key: K)
    requires AccountsOk(b, cfg, {}) && key in b.running
    ensures key in b.slots && b.slots[key].presence.InFlight? && b.slots[key].resident == None
    ensures b.running[key] < |b.inflight| == |b.ready|
    ensures forall i :: 0 <= i < |b.slots[key].queue| ==> b.slots[key].queue[i].cls < |b.ready|
  {
  }

  /** Completion gives back the budget unit, the pending count and the state. */
  lemma CompleteKeeps<K, P, S>(b: Book<K, P, S>, cfg: Config, key: K, cls: nat, kept: Option<S>, now: nat)
    requires Inv(b, cfg) && key in b.running && b.running[key] == cls
    ensures key in b.slots && cls < |b.inflight|
    ensures b.slots[key].queue != [] ==> b.slots[key].queue[0].cls < |b.ready|
    ensures Inv(Complete(b, key, cls, kept, now), cfg)
  {
    hide RingsOk, IdleOk, AccountsOk;
    RunningKey(b, cfg, key);
    var back := b.(slots := b.slots[key := b.slots[key].(resident := kept)],
                   inflight := b.inflight[cls := b.inflight[cls] - 1],
                   pending := b.pending - 1,
                   running := b.running - {key});
    PlacesFrame(b, {}, back, {key});
    BackAccounts(b, cfg, key, cls, kept);
    PlaceKeeps(back, cfg, key, now);
  }

  lemma BackAccounts<K, P, S>(b: Book<K, P, S>, cfg: Config, key: K, cls: nat, kept: Option<S>)
    requires AccountsOk(b, cfg, {}) && key in b.running && b.running[key] == cls && key in b.slots && cls < |b.inflight|
    ensures AccountsOk(b.(slots := b.slots[key := b.slots[key].(resident := kept)],
                          inflight := b.inflight[cls := b.inflight[cls] - 1],
                          pending := b.pending - 1,
                          running := b.running - {key}), cfg, {key})
  {
    var slots' := b.slots[key := b.slots[key].(resident := kept)];
    var running' := b.running - {key};
    assert key in Flying(b.slots, {});
    QueuedChange(b.slots, slots', key);
    assert Flying(slots', {key}) == Flying(b.slots, {}) - {key};
    assert Quiesced(slots', {key}) == Quiesced(b.slots, {});
    forall c | 0 <= c < |b.inflight|
      ensures |RunningIn(b.running, c)| == |RunningIn(running', c)| + (if c == cls then 1 else 0)
    {
      assert b.running == running'[key := cls];
      RunningAdd(running', key, cls, c);
    }
    assert running'.Keys == b.running.Keys - {key};
    assert |b.running.Keys| == |running'.Keys| + 1;
  }

  lemma DropFirst<K>(xs: seq<K>)
    requires Distinct(xs) && xs != []
    ensures Distinct(xs[1..]) && xs[0] !in xs[1..]
    ensures forall y :: y in xs[1..] ==> y in xs
    ensures forall y :: y in xs ==> y == xs[0] || y in xs[1..]
  {
  }

  /** The oldest idle key leaves: quiesced with its state handed over, or gone. */
  lemma ReleaseOldestKeeps<K, P, S>(b: Book<K, P, S>, cfg: Config)
    requires Inv(b, cfg) && IdleListed(b) && b.idle != []
    ensures Inv(ReleaseOldest(b).0, cfg)
  {
    hide AccountsOk, RingsOk;
    var key := b.idle[0];
    assert key in b.idle;
    DropFirst(b.idle);
    HoldIdle(b, cfg, key, b.idle[1..]);
    var held := b.(idle := b.idle[1..]);
    IdleIsEmpty(b, key);
    ReleaseKeeps(held, cfg, key);
  }

  lemma ReleaseKeeps<K, P, S>(b: Book<K, P, S>, cfg: Config, key: K)
    requires InvHeld(b, cfg, {key}) && key in b.slots && b.slots[key].queue == []
    ensures Inv(Release(b, key).0, cfg)
  {
    hide AccountsOk, RingsOk, IdleOk;
    var b' := Release(b, key).0;
    PlacesFrame(b, {key}, b', {});
    if b.slots[key].resident.Some? {
      QuiesceAccounts(b, cfg, key);
    } else {
      AccountsFrame(b, cfg, {key}, b', {}, key);
    }
  }

  lemma QuiesceCounts<K, P, S>(b: Book<K, P, S>, key: K)
    requires CountsOk(b, {key}) && key in b.slots
    ensures CountsOk(b.(slots := b.slots[key := b.slots[key].(presence := Evicting, resident := None)],
                        evicting := b.evicting + 1), {})
  {
    var slots' := b.slots[key := b.slots[key].(presence := Evicting, resident := None)];
    QueuedChange(b.slots, slots', key);
    assert key !in Quiesced(b.slots, {key});
    assert Quiesced(slots', {}) == Quiesced(b.slots, {key}) + {key};
  }

  lemma QuiesceAccounts<K, P, S>(b: Book<K, P, S>, cfg: Config, key: K)
    requires AccountsOk(b, cfg, {key}) && key in b.slots
    ensures AccountsOk(b.(slots := b.slots[key := b.slots[key].(presence := Evicting, resident := None)],
                          evicting := b.evicting + 1), cfg, {})
  {
    hide CountsOk;
    var slots' := b.slots[key := b.slots[key].(presence := Evicting, resident := None)];
    QuiesceCounts(b, key);
    assert Flying(slots', {}) == Flying(b.slots, {key});
  }

  lemma {:induction false} SweepKeeps<K, P, S>(b: Book<K, P, S>, cfg: Config, now: nat, iters: nat)
    requires Inv(b, cfg)
    ensures IdleListed(b) && Inv(Sweep(b, cfg, now, iters).0, cfg)
    decreases iters
  {
    hide PlacesOk, AccountsOk, OldEnough, OverCapacity, ReleaseOldest;
    InvDrainable(b, cfg, {});
    if iters > 0 && b.idle != [] && (OldEnough(b, cfg, b.idle[0], now) || OverCapacity(b, cfg)) {
      ReleaseOldestKeeps(b, cfg);
      SweepKeeps(ReleaseOldest(b).0, cfg, now, iters - 1);
    }
  }

  lemma {:induction false} EvictAllKeeps<K, P, S>(b: Book<K, P, S>, cfg: Config)
    requires Inv(b, cfg)
    ensures IdleListed(b) && Inv(EvictAll(b).0, cfg)
    ensures EvictAll(b).0.idle == []
    decreases |b.idle|
  {
    hide PlacesOk, AccountsOk, Release;
    InvDrainable(b, cfg, {});
    if b.idle != [] {
      ReleaseOldestKeeps(b, cfg);
      ReleaseShortens(b, b.idle[0]);
      EvictAllKeeps(ReleaseOldest(b).0, cfg);
    }
  }

  lemma ReleaseShortens<K, P, S>(b: Book<K, P, S>, key: K)
    requires key in b.slots
    ensures Release(b, key).0.idle == b.idle
    ensures Release(b.(idle := b.idle[if b.idle == [] then 0 else 1..]), key).0.idle ==
      b.idle[if b.idle == [] then 0 else 1..]
  {
  }

  /** A finished flush releases the key, or puts it back for the work that
      arrived meanwhile. */
  lemma FinishEvictKeeps<K, P, S>(b: Book<K, P, S>, cfg: Config, key: K, now: nat)
    requires Inv(b, cfg) && key in b.slots && b.slots[key].presence.Evicting?
    ensures b.slots[key].queue != [] ==> b.slots[key].queue[0].cls < |b.ready|
    ensures Inv(FinishEvict(b, key, now), cfg)
  {
    hide RingsOk, IdleOk, AccountsOk;
    KnownClasses(b, cfg, {}, key);
    var done := b.(evicting := b.evicting - 1);
    UnquiesceAccounts(b, cfg, key);
    PlacesFrame(b, {}, done, {key});
    if b.slots[key].queue == [] {
      var b' := done.(slots := b.slots - {key});
      PlacesFrame(done, {key}, b', {});
      AccountsFrame(done, cfg, {key}, b', {}, key);
    } else {
      PlaceKeeps(done, cfg, key, now);
    }
  }

  lemma UnquiesceAccounts<K, P, S>(b: Book<K, P, S>, cfg: Config, key: K)
    requires AccountsOk(b, cfg, {}) && key in b.slots && b.slots[key].presence.Evicting?
    ensures AccountsOk(b.(evicting := b.evicting - 1), cfg, {key})
  {
    assert Flying(b.slots, {key}) == Flying(b.slots, {});
    assert key in Quiesced(b.slots, {});
    assert Quiesced(b.slots, {key}) == Quiesced(b.slots, {}) - {key};
  }

  lemma PopExpiredKeeps<K, P, S>(b: Book<K, P, S>, cfg: Config)
    requires Inv(b, cfg)
    ensures Inv(PopExpired(b).0, cfg)
  {
    hide AccountsOk, RingsOk, IdleOk;
    var b' := PopExpired(b).0;
    PlacesFrame(b, {}, b', {});
    ExpiredAccounts(b, cfg, b'.expired);
  }

  lemma ExpiredAccounts<K, P, S>(b: Book<K, P, S>, cfg: Config, expired: seq<(K, nat, P)>)
    requires AccountsOk(b, cfg, {})
    ensures AccountsOk(b.(expired := expired), cfg, {})
  {
  }

  lemma EmptyKeeps<K, P, S>(cfg: Config)
    ensures Inv(Empty<K, P, S>(|cfg.maxInflight|), cfg)
  {
  }
}
