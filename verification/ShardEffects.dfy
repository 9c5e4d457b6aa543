/** What each scheduler operation does to the things a shard counts: each key's
    queue, the discarded items, the keys in flight and the keys quiesced. */
module ShardEffects {
  import opened Options
  import opened Sequences
  import opened Book
  import opened BookInvariant

  ghost predicate Evicted<K, P, S>(slots: map<K, Slot<P, S>>, k: K) {
    k in slots && slots[k].presence.Evicting?
  }

  /** Queues, discards and quiesced keys all stay as they are. */
  ghost predicate SameWork<K(!new), P, S>(b: Book<K, P, S>, b': Book<K, P, S>) {
    && b'.expired == b.expired && b'.evicting == b.evicting
    && (forall k :: QueueOf(b'.slots, k) == QueueOf(b.slots, k))
    && (forall k :: Evicted(b'.slots, k) <==> Evicted(b.slots, k))
  }

  lemma PlaceEffect<K(!new), P, S>(b: Book<K, P, S>, key: K, now: nat)
    requires key in b.slots && (b.slots[key].queue != [] ==> b.slots[key].queue[0].cls < |b.ready|)
    ensures var b' := Place(b, key, now);
      && b'.expired == b.expired && b'.evicting == b.evicting && b'.running == b.running && b'.pending == b.pending
      && (forall k :: QueueOf(b'.slots, k) == QueueOf(b.slots, k))
      && (forall k :: k != key ==> (Evicted(b'.slots, k) <==> Evicted(b.slots, k)))
      && !Evicted(b'.slots, key)
  {
  }

  lemma AdmitEffect<K(!new), P, S>(b: Book<K, P, S>, key: K, item: Item<P>)
    requires item.cls < |b.ready|
    requires key in b.slots && b.slots[key].presence.Idle? ==> b.slots[key].queue == []
    ensures var b' := Admit(b, key, item);
      && b'.expired == b.expired && b'.evicting == b.evicting && b'.running == b.running && b'.pending == b.pending + 1
      && (forall k :: QueueOf(b'.slots, k) == if k == key then QueueOf(b.slots, k) + [item] else QueueOf(b.slots, k))
      && (forall k :: Evicted(b'.slots, k) <==> Evicted(b.slots, k))
  {
    hide Place, Without;
    if key !in b.slots {
      PlaceEffect(Enqueue(b.(slots := b.slots[key := Cold()]), key, item), key, 0);
    } else if b.slots[key].presence.Idle? {
      PlaceEffect(Enqueue(b.(idle := Without(b.idle, key)), key, item), key, 0);
    }
  }

  lemma CompleteEffect<K(!new), P, S>(b: Book<K, P, S>, cfg: Config, key: K, cls: nat, kept: Option<S>, now: nat)
    requires Inv(b, cfg) && key in b.running && b.running[key] == cls
    ensures key in b.slots && cls < |b.inflight|
    ensures b.slots[key].queue != [] ==> b.slots[key].queue[0].cls < |b.ready|
    ensures SameWork(b, Complete(b, key, cls, kept, now))
    ensures Complete(b, key, cls, kept, now).running == b.running - {key}
  {
    hide Place, PlacesOk, AccountsOk;
    CompleteKeeps(b, cfg, key, cls, kept, now);
    InFlightKey(b, cfg, key);
    var back := b.(slots := b.slots[key := b.slots[key].(resident := kept)],
                   inflight := b.inflight[cls := b.inflight[cls] - 1],
                   pending := b.pending - 1,
                   running := b.running - {key});
    PlaceEffect(back, key, now);
  }

  lemma InFlightKey<K, P, S>(b: Book<K, P, S>, cfg: Config, key: K)
    requires Inv(b, cfg)
    ensures key in b.running <==> key in b.slots && b.slots[key].presence.InFlight?
  {
  }

  lemma FinishEvictEffect<K(!new), P, S>(b: Book<K, P, S>, key: K, now: nat)
    requires Evicted(b.slots, key)
    requires b.slots[key].queue != [] ==> b.slots[key].queue[0].cls < |b.ready|
    ensures var b' := FinishEvict(b, key, now);
      && b'.expired == b.expired && b'.running == b.running && b'.evicting == b.evicting - 1
      && (forall k :: QueueOf(b'.slots, k) == QueueOf(b.slots, k))
      && (forall k :: Evicted(b'.slots, k) <==> Evicted(b.slots, k) && k != key)
  {
  }

  // ---- Dispatch ---------------------------------------------------------------------------------

  /** What serving one front key does. */
  ghost predicate ServedFront<K(!new), P, S>(b: Book<K, P, S>, b': Book<K, P, S>, d: Option<Dispatch<K, P, S>>,
                                             key: K, n: nat, cls: nat) {
    && n <= |QueueOf(b.slots, key)|
    && b'.expired == b.expired + Tagged(key, QueueOf(b.slots, key)[..n])
    && b'.evicting == b.evicting
    && (forall k :: k != key ==> QueueOf(b'.slots, k) == QueueOf(b.slots, k))
    && (forall k :: Evicted(b'.slots, k) <==> Evicted(b.slots, k))
    && (if d.Some? then
          && n < |QueueOf(b.slots, key)| && d.value.key == key && d.value.cls == cls
          && d.value.payload == QueueOf(b.slots, key)[n].payload
          && QueueOf(b'.slots, key) == QueueOf(b.slots, key)[n + 1..]
          && key !in b.running && b'.running == b.running[key := cls]
        else
          QueueOf(b'.slots, key) == QueueOf(b.slots, key)[n..] && b'.running == b.running)
  }

  lemma TakeFrontEffect<K(!new), P, S>(b: Book<K, P, S>, cfg: Config, cls: nat, now: nat)
    requires Inv(b, cfg) && Drainable(b) && cls < |b.ready| && b.ready[cls] != []
    ensures var key := b.ready[cls][0];
      key in b.slots && ServedFront(b, TakeFront(b, cls, now).0, TakeFront(b, cls, now).1,
                                    key, ExpiredHeads(b.slots[key].queue, cls, now), cls)
  {
    hide Place, PlacesOk, AccountsOk, Drainable, ExpiredHeads;
    FrontOfRing(b, cfg, cls);
    var key := b.ready[cls][0];
    var n := ExpiredHeads(b.slots[key].queue, cls, now);
    TakeFrontParts(b, cls, now);
    var rest := Expire(b.(ready := b.ready[cls := b.ready[cls][1..]]), key, n);
    if !(n < |b.slots[key].queue| && b.slots[key].queue[n].cls == cls) { PlaceEffect(rest, key, now); }
  }

  lemma FrontOfRing<K, P, S>(b: Book<K, P, S>, cfg: Config, cls: nat)
    requires Inv(b, cfg) && cls < |b.ready| && b.ready[cls] != []
    ensures var key := b.ready[cls][0];
      key in b.slots && b.slots[key].presence == Ready(cls) && key !in b.running
  {
  }

  lemma TakeFrontParts<K, P, S>(b: Book<K, P, S>, cls: nat, now: nat)
    requires Drainable(b) && cls < |b.ready| && b.ready[cls] != []
    ensures var key := b.ready[cls][0];
      && key in b.slots
      && var q := b.slots[key].queue;
      var n := ExpiredHeads(q, cls, now);
      var rest := Expire(b.(ready := b.ready[cls := b.ready[cls][1..]]), key, n);
      && (rest.slots[key].queue != [] ==> rest.slots[key].queue[0].cls < |rest.ready|)
      && |rest.inflight| == |b.ready|
      && TakeFront(b, cls, now) ==
           if n < |q| && q[n].cls == cls then
             (Start(rest, key, cls), Some(Dispatch(key, cls, b.slots[key].resident, q[n].payload)))
           else (Place(rest, key, now), None)
  {
  }

  // ---- Eviction ------------------------------------------------------------------------------------

  function KeysOf<K, S>(out: seq<(K, S)>): seq<K> {
    seq(|out|, i requires 0 <= i < |out| => out[i].0)
  }

  /** Keys newly quiesced, each once, with their states handed back. */
  ghost predicate Quiescing<K(!new), P, S>(b: Book<K, P, S>, b': Book<K, P, S>, out: seq<(K, S)>) {
    && b'.expired == b.expired && b'.running == b.running && b'.evicting == b.evicting + |out|
    && (forall k :: QueueOf(b'.slots, k) == QueueOf(b.slots, k))
    && (forall k :: Evicted(b'.slots, k) <==> Evicted(b.slots, k) || k in KeysOf(out))
    && (forall k :: k in KeysOf(out) ==> !Evicted(b.slots, k))
    && Distinct(KeysOf(out))
  }

  lemma ReleaseEffect<K(!new), P, S>(b: Book<K, P, S>, cfg: Config)
    requires Inv(b, cfg) && IdleListed(b) && b.idle != []
    ensures Quiescing(b, ReleaseOldest(b).0, ReleaseOldest(b).1)
  {
    hide RingsOk, AccountsOk;
    var key := b.idle[0];
    assert key in b.idle;
    var out := ReleaseOldest(b).1;
    if b.slots[key].resident.Some? { assert KeysOf(out) == [key]; } else { assert KeysOf(out) == []; }
  }

  lemma QuiescingThen<K(!new), P, S>(a: Book<K, P, S>, b: Book<K, P, S>, c: Book<K, P, S>, out: seq<(K, S)>,
                                     more: seq<(K, S)>)
    requires Quiescing(a, b, out) && Quiescing(b, c, more)
    ensures Quiescing(a, c, out + more)
  {
    assert KeysOf(out + more) == KeysOf(out) + KeysOf(more);
    forall i, j | 0 <= i < j < |out + more| ensures KeysOf(out + more)[i] != KeysOf(out + more)[j] {
      if i < |out| <= j { assert KeysOf(out)[i] in KeysOf(out) && KeysOf(more)[j - |out|] in KeysOf(more); }
    }
  }

  lemma {:induction false} SweepEffect<K(!new), P, S>(b: Book<K, P, S>, cfg: Config, now: nat, iters: nat)
    requires Inv(b, cfg)
    ensures IdleListed(b) && Quiescing(b, Sweep(b, cfg, now, iters).0, Sweep(b, cfg, now, iters).1)
    decreases iters
  {
    hide Inv, ReleaseOldest, OldEnough, OverCapacity, Quiescing;
    SweepKeeps(b, cfg, now, iters);
    if iters > 0 && b.idle != [] && (OldEnough(b, cfg, b.idle[0], now) || OverCapacity(b, cfg)) {
      ReleaseOldestKeeps(b, cfg);
      ReleaseEffect(b, cfg);
      SweepEffect(ReleaseOldest(b).0, cfg, now, iters - 1);
      QuiescingThen(b, ReleaseOldest(b).0, Sweep(b, cfg, now, iters).0,
                    ReleaseOldest(b).1, Sweep(ReleaseOldest(b).0, cfg, now, iters - 1).1);
    } else {
      QuiescingNone(b);
    }
  }

  lemma {:induction false} EvictAllEffect<K(!new), P, S>(b: Book<K, P, S>, cfg: Config)
    requires Inv(b, cfg)
    ensures IdleListed(b) && Quiescing(b, EvictAll(b).0, EvictAll(b).1)
    decreases |b.idle|
  {
    hide Inv, Release, Quiescing;
    EvictAllKeeps(b, cfg);
    if b.idle != [] {
      ReleaseOldestKeeps(b, cfg);
      ReleaseShortens(b, b.idle[0]);
      ReleaseEffect(b, cfg);
      EvictAllEffect(ReleaseOldest(b).0, cfg);
      QuiescingThen(b, ReleaseOldest(b).0, EvictAll(b).0, ReleaseOldest(b).1, EvictAll(ReleaseOldest(b).0).1);
    } else {
      QuiescingNone(b);
    }
  }

  lemma QuiescingNone<K(!new), P, S>(b: Book<K, P, S>)
    ensures Quiescing(b, b, [])
  {
  }

  // ---- Totals -----------------------------------------------------------------------------------------

  function Sum(xs: seq<int>): int {
    if xs == [] then 0 else Sum(xs[..|xs| - 1]) + xs[|xs| - 1]
  }

  lemma {:induction false} SumBelow(xs: seq<int>, ys: seq<int>)
    requires |xs| == |ys| && forall i :: 0 <= i < |xs| ==> xs[i] <= ys[i]
    ensures Sum(xs) <= Sum(ys)
  {
    if xs != [] { SumBelow(xs[..|xs| - 1], ys[..|ys| - 1]); }
  }

  ghost function RunningBelow<K>(running: map<K, nat>, n: nat): set<K> {
    set k | k in running && running[k] < n
  }

  lemma {:induction false} SumCounts<K>(running: map<K, nat>, counts: seq<int>)
    requires forall c :: 0 <= c < |counts| ==> counts[c] == |RunningIn(running, c)|
    ensures Sum(counts) == |RunningBelow(running, |counts|)|
  {
    if counts == [] {
      assert RunningBelow(running, 0) == {};
    } else {
      var n := |counts| - 1;
      SumCounts(running, counts[..n]);
      assert RunningBelow(running, n + 1) == RunningBelow(running, n) + RunningIn(running, n);
      assert RunningBelow(running, n) !! RunningIn(running, n);
    }
  }

  /** The in-flight counters add up to the keys in flight, within the budgets. */
  lemma InFlightTotal<K, P, S>(b: Book<K, P, S>, cfg: Config)
    requires Inv(b, cfg)
    ensures Sum(b.inflight) == |b.running|
    ensures |b.inflight| == |cfg.maxInflight| && forall c :: 0 <= c < |b.inflight| ==>
      b.inflight[c] <= cfg.maxInflight[c]
  {
    hide PlacesOk, CountsOk, StateOk, ClassesOk;
    SumCounts(b.running, b.inflight);
    assert RunningBelow(b.running, |b.inflight|) == b.running.Keys;
  }
}
