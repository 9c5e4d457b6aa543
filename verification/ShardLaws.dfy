/** What one turn of the shard comes to, stage by stage, told of queues, futures,
    deadlines and clocks alone. */
module ShardLaws {
  import opened Options
  import opened Sequences
  import opened Book
  import opened BookInvariant
  import opened ShardEffects
  import opened ShardSteps
  import L = BookLaws
  import R = BookRuns
  import T = BookTheorems

  datatype Envelope<+K, +I, +W> = Envelope(key: K, cls: nat, id: Option<I>, expiresAt: Option<nat>, work: W)

  /** What the outside does in one turn: the arrivals, then perhaps the end of the
      mailbox; the futures that finish, with the state each returns; the tick, with
      its clock; and the clock at dispatch and at harvest. */
  datatype Input<+K, +I, +W, +S> = Input(
    arrivals: seq<Envelope<K, I, W>>, closes: bool, finished: seq<(K, Option<S>)>, tick: Option<nat>, now: nat, at: nat)

  /** A key's slot is as it was. */
  ghost predicate SameSlot<K(!new), P, S>(b: Book<K, P, S>, b': Book<K, P, S>, k: K) {
    (k in b'.slots <==> k in b.slots) && (k in b.slots ==> b'.slots[k] == b.slots[k])
  }

  // ---- Dispatch ------------------------------------------------------------------------------

  /** One call of `next` for a class, and what it dispatched. */
  datatype Serving<+K, +P, +S> = Serving(cls: nat, dispatch: Option<Dispatch<K, P, S>>)

  /** A dispatch starts a future for a key that had none. */
  ghost predicate DispatchStep<K(!new), I, W, S>(r: Reactor<K, I, W, S>, r': Reactor<K, I, W, S>, l: Limits,
                                                 s: Serving<K, Stamped<I, W>, S>, now: nat) {
    && L.DispatchLaw(r.book, r'.book, s.dispatch, l.cfg, s.cls, now)
    && r' == r.(book := r'.book, jobs := r'.jobs, log := r'.log)
    && match s.dispatch
       case None => r'.jobs == r.jobs
       case Some(d) => d.key !in r.jobs && r'.jobs == r.jobs[d.key := Run(s.cls, d.payload.id)]
  }

  /** Servings in a row, the first of class `cls`, going on to the next class when, and
      only when, one dispatches nothing. */
  ghost predicate Servings<K(!new), I, W, S>(states: seq<Reactor<K, I, W, S>>,
                                             servings: seq<Serving<K, Stamped<I, W>, S>>, l: Limits, cls: nat,
                                             now: nat) {
    && |states| == |servings| + 1
    && (forall i :: 0 <= i < |servings| ==> DispatchStep(states[i], states[i + 1], l, servings[i], now))
    && (servings != [] ==> servings[0].cls == cls)
    && (forall i :: 0 <= i < |servings| - 1 ==> servings[i + 1].cls == NextClass(servings[i]))
  }

  function NextClass<K, P, S>(s: Serving<K, P, S>): nat {
    if s.dispatch.Some? then s.cls else s.cls + 1
  }

  /** Each class in turn is served until it has nothing to give. */
  ghost predicate PassLaw<K(!new), I, W, S>(states: seq<Reactor<K, I, W, S>>,
                                            servings: seq<Serving<K, Stamped<I, W>, S>>, l: Limits, now: nat) {
    Servings(states, servings, l, 0, now) && Reaches(servings, 0, |l.cfg.maxInflight|)
  }

  /** The servings are of the classes from `cls` up to `end`, each served to its end. */
  ghost predicate Reaches<K, P, S>(servings: seq<Serving<K, P, S>>, cls: nat, end: nat) {
    if servings == [] then cls == end else NextClass(servings[|servings| - 1]) == end > servings[|servings| - 1].cls
  }

  lemma ServingsThen<K(!new), I, W, S>(states: seq<Reactor<K, I, W, S>>, servings: seq<Serving<K, Stamped<I, W>, S>>,
                                       states': seq<Reactor<K, I, W, S>>, servings': seq<Serving<K, Stamped<I, W>, S>>,
                                       l: Limits, cls: nat, mid: nat, now: nat)
    requires Servings(states, servings, l, cls, now) && Servings(states', servings', l, mid, now) && servings' != []
    requires states[|states| - 1] == states'[0]
    requires mid == if servings == [] then cls else NextClass(servings[|servings| - 1])
    ensures Servings(states + states'[1..], servings + servings', l, cls, now)
    ensures var all := states + states'[1..]; all[0] == states[0] && all[|all| - 1] == states'[|states'| - 1]
    ensures var all := servings + servings'; all[|all| - 1] == servings'[|servings'| - 1]
  {
    hide DispatchStep, NextClass;
    var n := |servings|;
    var all, alls := states + states'[1..], servings + servings';
    forall i | n <= i <= |alls| ensures all[i] == states'[i - n] {
    }
    forall i | 0 <= i < |alls| ensures DispatchStep(all[i], all[i + 1], l, alls[i], now) {
      if i >= n { assert DispatchStep(states'[i - n], states'[i - n + 1], l, servings'[i - n], now); }
    }
    forall i | 0 <= i < |alls| - 1 ensures alls[i + 1].cls == NextClass(alls[i]) {
      if i >= n { assert servings'[i - n + 1].cls == NextClass(servings'[i - n]); }
    }
  }

  // ---- Discards and flushes ------------------------------------------------------------------

  /** Every discard is handed back, in order, and its pair forgotten. */
  ghost predicate ShedLaw<K(!new), I(!new), W, S>(r: Reactor<K, I, W, S>, r': Reactor<K, I, W, S>) {
    && r'.book == r.book.(expired := [])
    && r' == r.(book := r'.book, live := r'.live, shed := r'.shed, log := r'.log)
    && |r'.shed| == |r.shed| + |r.book.expired| && r.shed <= r'.shed
    && (forall i :: 0 <= i < |r.book.expired| ==>
          r'.shed[|r.shed| + i] == (r.book.expired[i].0, r.book.expired[i].2.work))
    && (forall k, id :: (k, id) in r'.live <==> (k, id) in r.live && !Discarded(r.book.expired, k, id))
  }

  ghost predicate Discarded<K, I, W>(expired: seq<(K, nat, Stamped<I, W>)>, k: K, id: I) {
    exists i :: 0 <= i < |expired| && expired[i].0 == k && expired[i].2.id == Some(id)
  }

  lemma ShedMore<K(!new), I(!new), W, S>(r: Reactor<K, I, W, S>, r': Reactor<K, I, W, S>)
    requires r.book.expired != [] && ShedLaw(ShedOne(r), r')
    ensures ShedLaw(r, r')
  {
    hide Discarded;
    var more := ShedOne(r);
    var expired := r.book.expired;
    forall i | 0 <= i < |expired| ensures r'.shed[|r.shed| + i] == (expired[i].0, expired[i].2.work) {
      if i > 0 { assert r'.shed[|more.shed| + (i - 1)] == (expired[1..][i - 1].0, expired[1..][i - 1].2.work); }
    }
    forall k, id ensures (k, id) in r'.live <==> (k, id) in r.live && !Discarded(expired, k, id) {
      DiscardedHead(expired, k, id);
    }
  }

  lemma DiscardedHead<K, I, W>(expired: seq<(K, nat, Stamped<I, W>)>, k: K, id: I)
    requires expired != []
    ensures Discarded(expired, k, id) <==>
      (expired[0].0 == k && expired[0].2.id == Some(id)) || Discarded(expired[1..], k, id)
  {
    if Discarded(expired, k, id) {
      var i :| 0 <= i < |expired| && expired[i].0 == k && expired[i].2.id == Some(id);
      if i > 0 { assert expired[1..][i - 1].0 == k; }
    }
    if Discarded(expired[1..], k, id) {
      var i :| 0 <= i < |expired| - 1 && expired[1..][i].0 == k && expired[1..][i].2.id == Some(id);
      assert expired[i + 1].0 == k;
    }
  }

  /** The first `n` staged keys get a future each, until none waits or the slots are full. */
  ghost predicate FlushLaw<K(!new), I, W, S>(r: Reactor<K, I, W, S>, r': Reactor<K, I, W, S>, l: Limits) {
    var n := r'.flushes - r.flushes;
    && 0 <= n <= |r.staged| && r'.staged == r.staged[n..] && (r'.staged == [] || r'.flushes == l.flushSlots)
    && r' == r.(jobs := r'.jobs, staged := r'.staged, flushes := r'.flushes)
    && (forall k :: k in r'.jobs <==> k in r.jobs || k in KeysOf(r.staged[..n]))
    && (forall k :: k in r.jobs ==> k in r'.jobs && r'.jobs[k] == r.jobs[k])
    && (forall k :: k in KeysOf(r.staged[..n]) ==> k !in r.jobs && k in r'.jobs && r'.jobs[k] == Flush)
  }

  // ---- Arrivals ------------------------------------------------------------------------------

  /** A pair is outstanding: queued, discarded and not yet handed back, or in flight. */
  ghost predicate Outstands<K, I, W, S>(r: Reactor<K, I, W, S>, k: K, id: I) {
    || (exists item :: item in QueueOf(r.book.slots, k) && item.payload.id == Some(id))
    || Discarded(r.book.expired, k, id)
    || (k in r.jobs && r.jobs[k].Run? && r.jobs[k].id == Some(id))
  }

  /** An arrival is handed back exactly when coalescing is on and its pair is outstanding;
      any other joins the end of its key's queue, and its pair is remembered. */
  ghost predicate ArriveStep<K(!new), I, W, S>(r: Reactor<K, I, W, S>, r': Reactor<K, I, W, S>, l: Limits,
                                               e: Envelope<K, I, W>) {
    if l.coalesce && e.id.Some? && Outstands(r, e.key, e.id.value) then
      r' == r.(coalesced := r.coalesced + [(e.key, e.work)])
    else
      var id := if l.coalesce then e.id else None;
      && r' == r.(book := r'.book, live := r'.live, log := r'.log)
      && r'.live == r.live + (if id.Some? then {(e.key, id.value)} else {})
      && r'.book.pending == r.book.pending + 1 && r'.book.expired == r.book.expired
      && r'.book.running == r.book.running
      && (forall k :: k != e.key ==> SameSlot(r.book, r'.book, k))
      && e.key in r'.book.slots
      && r'.book.slots[e.key].queue ==
           QueueOf(r.book.slots, e.key) + [Item(e.cls, e.expiresAt, Stamped(id, e.work))]
      && r'.book.slots[e.key].resident == R.ResidentOf(r.book.slots, e.key)
      && r'.book.slots[e.key].presence ==
           if e.key in r.book.slots && !r.book.slots[e.key].presence.Idle? then r.book.slots[e.key].presence
           else Ready(e.cls)
  }

  /** A burst takes arrivals one by one, each while fewer are queued or in flight than the
      shard may hold, until there are no more, the batch is used up or the shard is full. */
  ghost predicate BurstLaw<K(!new), I, W, S>(states: seq<Reactor<K, I, W, S>>, l: Limits,
                                             arrivals: seq<Envelope<K, I, W>>) {
    && Takes(states, l, arrivals)
    && var n := |states| - 1;
       (n == |arrivals| || n == (if l.admitBatch == 0 then 1 else l.admitBatch)
        || states[n].book.pending >= l.maxPending)
  }

  ghost predicate Takes<K(!new), I, W, S>(states: seq<Reactor<K, I, W, S>>, l: Limits,
                                          arrivals: seq<Envelope<K, I, W>>) {
    && 1 <= |states| <= |arrivals| + 1
    && |states| - 1 <= (if l.admitBatch == 0 then 1 else l.admitBatch)
    && forall i :: 0 <= i < |states| - 1 ==>
         states[i].book.pending < l.maxPending && ArriveStep(states[i], states[i + 1], l, arrivals[i])
  }

  lemma TakesMore<K(!new), I, W, S>(states: seq<Reactor<K, I, W, S>>, r': Reactor<K, I, W, S>, l: Limits,
                                    arrivals: seq<Envelope<K, I, W>>)
    requires Takes(states, l, arrivals) && |states| <= |arrivals|
    requires |states| - 1 < if l.admitBatch == 0 then 1 else l.admitBatch
    requires states[|states| - 1].book.pending < l.maxPending
    requires ArriveStep(states[|states| - 1], r', l, arrivals[|states| - 1])
    ensures Takes(states + [r'], l, arrivals)
  {
    hide ArriveStep;
  }

  /** After the burst the mailbox is found closed when all it held was taken and the shard
      would have taken more. */
  ghost predicate ListenLaw<K(!new), I, W, S>(states: seq<Reactor<K, I, W, S>>, r': Reactor<K, I, W, S>, l: Limits,
                                              arrivals: seq<Envelope<K, I, W>>, closes: bool) {
    && BurstLaw(states, l, arrivals)
    && var n := |states| - 1;
    && r' == states[n].(open := r'.open)
    && var more := n < (if l.admitBatch == 0 then 1 else l.admitBatch) && states[n].book.pending < l.maxPending;
    && (r'.open <==> states[0].open && !(closes && n == |arrivals| && more))
  }

  // ---- Completions -----------------------------------------------------------------------------

  /** How a key stands whose future finished with `kept`: what it had queued is queued, and
      after a dispatch it holds what was kept and waits, in the class of its head, or is
      idle since now; after a flush it is gone unless something is queued. */
  ghost predicate Returned<K(!new), I, W, S>(r: Reactor<K, I, W, S>, b': Book<K, Stamped<I, W>, S>, k: K,
                                             kept: Option<S>, at: nat) {
    var queue := QueueOf(r.book.slots, k);
    && k in r.jobs && QueueOf(b'.slots, k) == queue
    && match r.jobs[k]
       case Run(_, _) =>
         && k in b'.slots && b'.slots[k].resident == kept
         && (if queue == [] then b'.slots[k].presence == Idle && b'.slots[k].idleSince == at
             else b'.slots[k].presence == Ready(queue[0].cls))
       case Flush =>
         && (k in b'.slots <==> queue != [])
         && (k in b'.slots ==> b'.slots[k].resident == None && b'.slots[k].presence == Ready(queue[0].cls))
  }

  /** One future finished. */
  ghost predicate FinishStep<K(!new), I(!new), W, S>(r: Reactor<K, I, W, S>, r': Reactor<K, I, W, S>, key: K,
                                                     kept: Option<S>, at: nat) {
    && Returned(r, r'.book, key, kept, at)
    && (forall k :: k != key ==> SameSlot(r.book, r'.book, k))
    && r' == r.(book := r'.book, live := r'.live, jobs := r.jobs - {key}, flushes := r'.flushes, log := r'.log)
    && r'.book.running == r.book.running - {key} && r'.book.expired == r.book.expired
    && r'.flushes == r.flushes - (if r.jobs[key].Flush? then 1 else 0)
    && (forall k, id :: (k, id) in r'.live <==>
          (k, id) in r.live && !(k == key && r.jobs[k].Run? && r.jobs[k].id == Some(id)))
  }

  /** Entry `i` is the first one of its key. */
  ghost predicate First<K, S>(finished: seq<(K, Option<S>)>, i: nat) {
    i < |finished| && forall j :: 0 <= j < i ==> finished[j].0 != finished[i].0
  }

  /** The keys among the first `p` that had futures. */
  ghost function Among<K, I, S>(jobs: map<K, Job<I>>, finished: seq<(K, Option<S>)>, p: nat): set<K>
    requires p <= |finished|
  {
    set i | 0 <= i < p && finished[i].0 in jobs :: finished[i].0
  }

  ghost function Flushing<K, I>(jobs: map<K, Job<I>>, keys: set<K>): set<K> {
    set k | k in keys && k in jobs && jobs[k].Flush?
  }

  /** The futures of the keys among the first `p` that finished are done: each such key
      stands as it should for what its future returned, and no other key is touched. */
  ghost predicate Finished<K(!new), I(!new), W, S>(r: Reactor<K, I, W, S>, r': Reactor<K, I, W, S>,
                                                   finished: seq<(K, Option<S>)>, p: nat, count: nat, at: nat) {
    && p <= |finished|
    && var left := Among(r.jobs, finished, p);
    && count == |left|
    && r' == r.(book := r'.book, live := r'.live, jobs := r.jobs - left, flushes := r'.flushes, log := r'.log)
    && r'.book.running == r.book.running - left && r'.book.expired == r.book.expired
    && r'.flushes == r.flushes - |Flushing(r.jobs, left)|
    && (forall k, id :: (k, id) in r'.live <==>
          (k, id) in r.live && !(k in left && r.jobs[k].Run? && r.jobs[k].id == Some(id)))
    && (forall k :: k !in left ==> SameSlot(r.book, r'.book, k))
    && (forall i :: 0 <= i < p && finished[i].0 in left && First(finished, i) ==>
          Returned(r, r'.book, finished[i].0, finished[i].1, at))
  }

  /** A harvest finishes, of the futures outstanding, those first to finish: as many as the
      batch allows, or all there are. */
  ghost predicate HarvestLaw<K(!new), I(!new), W, S>(r: Reactor<K, I, W, S>, r': Reactor<K, I, W, S>, l: Limits,
                                                     finished: seq<(K, Option<S>)>, p: nat, count: nat, at: nat) {
    && Finished(r, r', finished, p, count, at)
    && var batch := if l.completeBatch == 0 then 1 else l.completeBatch;
    && count <= batch && (p == |finished| || count == batch)
  }

  // ---- Sweeps and turns ------------------------------------------------------------------------

  /** A sweep does nothing while candidates wait. Otherwise it releases the longest idle
      keys, each old enough or beyond the cap when it went, and stages their states. */
  ghost predicate SweepLaw<K(!new), I, W, S>(r: Reactor<K, I, W, S>, r': Reactor<K, I, W, S>, l: Limits, now: nat) {
    if r.staged != [] then r' == r
    else
      && r' == r.(book := r'.book, staged := r'.staged, log := r'.log)
      && exists m: nat :: T.Swept(r.book, l.cfg, now, l.cfg.evictIters, r'.book, r'.staged, m)
  }

  /** The final flush releases every idle key and stages the states they hold. */
  ghost predicate FinalLaw<K(!new), I, W, S>(r: Reactor<K, I, W, S>, r': Reactor<K, I, W, S>) {
    && r' == r.(book := r'.book, staged := r'.staged, finalFlush := false, log := r'.log)
    && r'.book.idle == [] && r'.staged == T.Collect(r.book.slots, r.book.idle)
    && T.Released(r.book, r'.book, r.book.idle)
  }

  /** The states a turn goes through: dispatch by dispatch, then with the discards handed
      back and the flushes begun, then arrival by arrival, then with the mailbox heard and
      the completions harvested; and how far the harvest got and what it finished. */
  datatype Trail<K(==), I(==), W, S> = Trail(
    served: seq<Reactor<K, I, W, S>>, servings: seq<Serving<K, Stamped<I, W>, S>>, shed: Reactor<K, I, W, S>,
    begun: Reactor<K, I, W, S>, taken: seq<Reactor<K, I, W, S>>, heard: Reactor<K, I, W, S>,
    harvested: Reactor<K, I, W, S>, entries: nat, count: nat)

  ghost predicate BeginLaw<K(!new), I(!new), W, S>(r: Reactor<K, I, W, S>, r': Reactor<K, I, W, S>, l: Limits, now: nat,
                                                   t: Trail<K, I, W, S>) {
    && PassLaw(t.served, t.servings, l, now) && t.served[0] == r
    && ShedLaw(t.served[|t.served| - 1], t.shed) && FlushLaw(t.shed, r', l)
  }

  ghost predicate ServeLaw<K(!new), I(!new), W, S>(r: Reactor<K, I, W, S>, r': Reactor<K, I, W, S>, l: Limits,
                                                   input: Input<K, I, W, S>, t: Trail<K, I, W, S>) {
    && (if r.open then ListenLaw(t.taken, t.heard, l, input.arrivals, input.closes) && t.taken[0] == r
        else t.heard == r)
    && HarvestLaw(t.heard, t.harvested, l, input.finished, t.entries, t.count, input.at)
    && (if input.tick.Some? then SweepLaw(t.harvested, r', l, input.tick.value) else r' == t.harvested)
  }

  lemma SameBeginning<K(!new), I(!new), W, S>(r: Reactor<K, I, W, S>, r': Reactor<K, I, W, S>, l: Limits, now: nat,
                                              t: Trail<K, I, W, S>, t': Trail<K, I, W, S>)
    requires BeginLaw(r, r', l, now, t)
    requires t'.served == t.served && t'.servings == t.servings && t'.shed == t.shed
    ensures BeginLaw(r, r', l, now, t')
  {
  }

  /** A turn dispatches, hands back and flushes. Then, with the mailbox closed and nothing
      in flight or staged, it flushes what is resident, once, and ends the shard when
      nothing is left to flush; otherwise it listens, harvests and, at a tick, sweeps. */
  ghost predicate TurnLaw<K(!new), I(!new), W, S>(r: Reactor<K, I, W, S>, r': Reactor<K, I, W, S>, ended: bool,
                                                  l: Limits, input: Input<K, I, W, S>, t: Trail<K, I, W, S>) {
    && BeginLaw(r, t.begun, l, input.now, t)
    && if t.begun.open || t.begun.jobs != map[] || t.begun.staged != [] then
         ServeLaw(t.begun, r', l, input, t) && !ended
       else if t.begun.finalFlush then
         FinalLaw(t.begun, r') && (ended <==> r'.staged == [])
       else r' == t.begun && ended
  }

  lemma NoneFinished<K(!new), I(!new), W, S>(r: Reactor<K, I, W, S>, finished: seq<(K, Option<S>)>, at: nat)
    ensures Finished(r, r, finished, 0, 0, at)
  {
    assert Among(r.jobs, finished, 0) == {};
    assert r.jobs - {} == r.jobs && r.book.running - {} == r.book.running;
  }

  /** An entry for a key with no future, or none any more, changes nothing. */
  lemma FinishedSkip<K(!new), I(!new), W, S>(r: Reactor<K, I, W, S>, r1: Reactor<K, I, W, S>,
                                             finished: seq<(K, Option<S>)>, p: nat, count: nat, at: nat)
    requires Finished(r, r1, finished, p, count, at) && p < |finished| && finished[p].0 !in r1.jobs
    ensures Finished(r, r1, finished, p + 1, count, at)
  {
    assert Among(r.jobs, finished, p + 1) == Among(r.jobs, finished, p);
    if finished[p].0 in Among(r.jobs, finished, p) {
      var j :| 0 <= j < p && finished[j].0 == finished[p].0;
    }
  }

  lemma ReturnedStays<K(!new), I(!new), W, S>(r: Reactor<K, I, W, S>, b1: Book<K, Stamped<I, W>, S>,
                                              b2: Book<K, Stamped<I, W>, S>, k: K, kept: Option<S>, at: nat)
    requires Returned(r, b1, k, kept, at) && SameSlot(b1, b2, k)
    ensures Returned(r, b2, k, kept, at)
  {
  }

  lemma ReturnedNow<K(!new), I(!new), W, S>(r: Reactor<K, I, W, S>, r1: Reactor<K, I, W, S>,
                                            b2: Book<K, Stamped<I, W>, S>, k: K, kept: Option<S>, at: nat)
    requires Returned(r1, b2, k, kept, at) && SameSlot(r.book, r1.book, k)
    requires k in r.jobs && k in r1.jobs && r1.jobs[k] == r.jobs[k]
    ensures Returned(r, b2, k, kept, at)
  {
  }

  lemma SlotStays<K(!new), P, S>(a: Book<K, P, S>, b: Book<K, P, S>, c: Book<K, P, S>, k: K)
    requires SameSlot(a, b, k) && SameSlot(b, c, k)
    ensures SameSlot(a, c, k)
  {
  }

  lemma FinishedMore<K(!new), I(!new), W, S>(r: Reactor<K, I, W, S>, r1: Reactor<K, I, W, S>,
                                             r2: Reactor<K, I, W, S>, finished: seq<(K, Option<S>)>, p: nat, count: nat,
                                             at: nat)
    requires Finished(r, r1, finished, p, count, at) && p < |finished| && finished[p].0 in r1.jobs
    requires FinishStep(r1, r2, finished[p].0, finished[p].1, at)
    ensures Finished(r, r2, finished, p + 1, count + 1, at)
  {
    hide Returned, SameSlot, Flushing, Among;
    var key := finished[p].0;
    var left := Among(r.jobs, finished, p);
    AmongMore(r.jobs, finished, p);
    assert r.jobs - left - {key} == r.jobs - (left + {key});
    assert r.book.running - left - {key} == r.book.running - (left + {key});
    FlushingMore(r.jobs, left, key);
    forall k | k !in left + {key} ensures SameSlot(r.book, r2.book, k) {
      SlotStays(r.book, r1.book, r2.book, k);
    }
    forall i | 0 <= i < p + 1 && finished[i].0 in left + {key} && First(finished, i)
      ensures Returned(r, r2.book, finished[i].0, finished[i].1, at)
    {
      if i == p {
        ReturnedNow(r, r1, r2.book, key, finished[p].1, at);
      } else {
        FirstAmong(r.jobs, finished, p, i);
        assert finished[i].0 != key;
        ReturnedStays(r, r1.book, r2.book, finished[i].0, finished[i].1, at);
      }
    }
  }

  lemma AmongMore<K, I, S>(jobs: map<K, Job<I>>, finished: seq<(K, Option<S>)>, p: nat)
    requires p < |finished| && finished[p].0 in jobs
    ensures Among(jobs, finished, p + 1) == Among(jobs, finished, p) + {finished[p].0}
  {
  }

  lemma FirstAmong<K, I, S>(jobs: map<K, Job<I>>, finished: seq<(K, Option<S>)>, p: nat, i: nat)
    requires i < p <= |finished|
    ensures finished[i].0 in jobs ==> finished[i].0 in Among(jobs, finished, p)
    ensures finished[i].0 in Among(jobs, finished, p) ==> finished[i].0 in jobs
  {
  }

  lemma FlushingMore<K, I>(jobs: map<K, Job<I>>, keys: set<K>, key: K)
    requires key !in keys && key in jobs
    ensures |Flushing(jobs, keys + {key})| == |Flushing(jobs, keys)| + (if jobs[key].Flush? then 1 else 0)
  {
    if jobs[key].Flush? {
      assert Flushing(jobs, keys + {key}) == Flushing(jobs, keys) + {key};
    } else {
      assert Flushing(jobs, keys + {key}) == Flushing(jobs, keys);
    }
  }
}
