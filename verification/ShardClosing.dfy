/** What a shard leaves behind when it ends, when no work carries a deadline and every
    class has some budget: nothing. */
module ShardClosing {
  import opened Options
  import opened Sequences
  import opened Book
  import opened BookInvariant
  import opened ShardEffects
  import opened ShardSteps
  import opened ShardLaws
  import opened ShardTurns

  // ---- Filling the budgets --------------------------------------------------------------------

  /** Nothing queued has reached its deadline. */
  ghost predicate NoneDue<K(!new), P(!new), S>(b: Book<K, P, S>, now: nat) {
    forall k, item :: item in QueueOf(b.slots, k) ==>
      item.expiresAt.None? || now < item.expiresAt.value
  }

  /** Nothing is queued that was not before. */
  ghost predicate Fewer<K(!new), P(!new), S>(b: Book<K, P, S>, b': Book<K, P, S>) {
    forall k, item :: item in QueueOf(b'.slots, k) ==> item in QueueOf(b.slots, k)
  }

  /** A class has nothing ready, or no budget left. */
  predicate Filled<K, P, S>(b: Book<K, P, S>, cfg: Config, c: nat) {
    && c < |b.ready| == |b.inflight| == |cfg.maxInflight|
    && (b.ready[c] == [] || b.inflight[c] >= cfg.maxInflight[c])
  }

  ghost predicate OthersStay<K, P, S>(b: Book<K, P, S>, b': Book<K, P, S>, cls: nat) {
    && |b'.ready| == |b.ready| == |b'.inflight| == |b.inflight|
    && b'.expired == b.expired && b'.idle == b.idle
    && (forall c :: 0 <= c < |b.ready| && c != cls ==> b'.ready[c] == b.ready[c] && b'.inflight[c] == b.inflight[c])
  }

  lemma NextNoneDue<K(!new), P(!new), S>(b: Book<K, P, S>, cfg: Config, cls: nat, now: nat)
    requires Inv(b, cfg) && cls < |b.ready| && NoneDue(b, now)
    ensures Drainable(b) && |b.ready| == |cfg.maxInflight|
    ensures var (b', d) := Next(b, cfg, cls, now);
      && Fewer(b, b') && OthersStay(b, b', cls)
      && (d.None? ==> b' == b && Filled(b, cfg, cls))
  {
    hide PlacesOk, CountsOk, StateOk, ClassesOk, Drainable;
    InvDrainable(b, cfg, {});
    if b.inflight[cls] < cfg.maxInflight[cls] && b.ready[cls] != [] {
      FrontHead(b, cfg, cls);
      var key := b.ready[cls][0];
      assert b.slots[key].queue[0] in QueueOf(b.slots, key);
      TakeFrontParts(b, cls, now);
    }
  }

  lemma FrontHead<K, P, S>(b: Book<K, P, S>, cfg: Config, cls: nat)
    requires Inv(b, cfg) && cls < |b.ready| && b.ready[cls] != []
    ensures var key := b.ready[cls][0];
      key in b.slots && b.slots[key].queue != [] && b.slots[key].queue[0].cls == cls
  {
    hide AccountsOk;
    assert b.ready[cls][0] in b.ready[cls];
  }

  lemma {:induction false} FillNoneDue<K(!new), I(!new), W(!new), S>(r: Reactor<K, I, W, S>, l: Limits, cls: nat,
                                                                     now: nat)
    requires Good(r, l) && cls < |r.book.ready| && NoneDue(r.book, now)
    ensures var r' := Fill(r, l, cls, now);
      Fewer(r.book, r'.book) && OthersStay(r.book, r'.book, cls) && Filled(r'.book, l.cfg, cls)
    decreases Budget(r.book, l.cfg, cls)
  {
    hide Inv, LiveOk, JobsOk, CountsMatch, Next, Budget, Filled;
    NextShard(r, l, cls, now);
    NextSpends(r, l, cls, now);
    NextNoneDue(r.book, l.cfg, cls, now);
    var (b, d) := Next(r.book, l.cfg, cls, now);
    if d.Some? { FillNoneDue(Served(r, l, cls, now), l, cls, now); }
  }

  /** One pass over the classes, when nothing queued is due, leaves every class with
      an empty ring or a full budget. */
  lemma {:induction false} FillsEveryBudget<K(!new), I(!new), W(!new), S>(r: Reactor<K, I, W, S>, l: Limits, cls: nat,
          now: nat)
    requires Good(r, l) && cls <= |l.cfg.maxInflight| && NoneDue(r.book, now)
    ensures var r' := FillFrom(r, l, cls, now);
      && Fewer(r.book, r'.book) && r'.book.expired == r.book.expired && r'.book.idle == r.book.idle
      && |r'.book.ready| == |r.book.ready| == |r'.book.inflight| == |r.book.inflight|
      && (forall c :: 0 <= c < cls ==> c < |r.book.ready| && r'.book.ready[c] == r.book.ready[c]
                                       && r'.book.inflight[c] == r.book.inflight[c])
      && (forall c :: cls <= c < |l.cfg.maxInflight| ==> Filled(r'.book, l.cfg, c))
    decreases |l.cfg.maxInflight| - cls
  {
    hide Good, Fill;
    RingCount(r, l);
    if cls < |l.cfg.maxInflight| {
      FillNoneDue(r, l, cls, now);
      FillsEveryBudget(Fill(r, l, cls, now), l, cls + 1, now);
    }
  }

  /** With every ring empty a pass dispatches nothing. */
  lemma {:induction false} NothingToFill<K(!new), I(!new), W, S>(r: Reactor<K, I, W, S>, l: Limits, cls: nat, now: nat)
    requires Good(r, l) && cls <= |l.cfg.maxInflight| && forall c :: 0 <= c < |r.book.ready| ==> r.book.ready[c] == []
    ensures FillFrom(r, l, cls, now) == r.(log := FillFrom(r, l, cls, now).log)
    decreases |l.cfg.maxInflight| - cls
  {
    hide Good;
    RingCount(r, l);
    if cls < |l.cfg.maxInflight| {
      NextShard(r, l, cls, now);
      NothingToFill(Served(r, l, cls, now), l, cls + 1, now);
    }
  }

  // ---- Work with no deadline ---------------------------------------------------------------------

  /** Nothing queued carries a deadline, and nothing was ever discarded. */
  ghost predicate Timeless<K(!new), I(!new), W(!new), S>(r: Reactor<K, I, W, S>) {
    && r.book.expired == [] && r.shed == []
    && forall k, item :: item in QueueOf(r.book.slots, k) ==> item.expiresAt.None?
  }

  /** The shard has flushed what was resident: only quiesced keys are left, with
      nothing behind them. */
  ghost predicate Settled<K, I, W, S>(r: Reactor<K, I, W, S>) {
    && !r.open && !r.finalFlush && r.book.running == map[] && r.book.idle == []
    && (forall c :: 0 <= c < |r.book.ready| ==> r.book.ready[c] == [])
    && (forall k :: k in r.book.slots ==> r.book.slots[k].presence.Evicting? && r.book.slots[k].queue == [])
  }

  /** Timeless, and settled once the final flush is under way. */
  ghost predicate Closing<K(!new), I(!new), W(!new), S>(r: Reactor<K, I, W, S>) {
    Timeless(r) && (!r.finalFlush ==> Settled(r))
  }

  lemma ShedNothing<K(!new), I(!new), W, S>(r: Reactor<K, I, W, S>, l: Limits)
    requires Good(r, l) && r.book.expired == []
    ensures Shed(r, l) == r
  {
    hide Good;
  }

  /** A turn begins: every class ends with nothing ready or no budget left. */
  lemma BeginCloses<K(!new), I(!new), W(!new), S>(r: Reactor<K, I, W, S>, l: Limits, now: nat)
    requires Good(r, l) && Closing(r)
    ensures Closing(Begin(r, l, now)) && Begin(r, l, now).open == r.open && Begin(r, l, now).finalFlush == r.finalFlush
    ensures forall c :: 0 <= c < |l.cfg.maxInflight| ==> Filled(Begin(r, l, now).book, l.cfg, c)
  {
    hide Good, FillFrom, Shed, StartFlushes, Filled;
    var filled := FillFrom(r, l, 0, now);
    FillsEveryBudget(r, l, 0, now);
    assert Timeless(filled);
    ShedNothing(filled, l);
    if !r.finalFlush { NothingToFill(r, l, 0, now); }
  }

  lemma ArriveCloses<K(!new), I(!new), W(!new), S>(r: Reactor<K, I, W, S>, l: Limits, e: Envelope<K, I, W>)
    requires Good(r, l) && e.cls < |l.cfg.maxInflight| && Timeless(r) && e.expiresAt.None?
    ensures Timeless(Arrive(r, l, e))
  {
    hide Good, Admit;
    RingCount(r, l);
    if !(l.coalesce && e.id.Some? && (e.key, e.id.value) in r.live) {
      AdmitShard(r, l, e.key, ItemOf(e, l));
      AdmitEffect(r.book, e.key, ItemOf(e, l));
    }
  }

  ghost predicate NoDeadlines<K, I, W>(arrivals: seq<Envelope<K, I, W>>) {
    forall i :: 0 <= i < |arrivals| ==> arrivals[i].expiresAt.None?
  }

  lemma {:induction false} DrainedCloses<K(!new), I(!new), W(!new), S>(r: Reactor<K, I, W, S>, l: Limits,
                                                                      arrivals: seq<Envelope<K, I, W>>, taken: nat)
    requires Good(r, l) && ArrivalsOk(arrivals, l) && taken <= |arrivals| && Timeless(r) && NoDeadlines(arrivals)
    ensures Timeless(Drained(r, l, arrivals, taken).0)
    decreases |arrivals| - taken
  {
    hide Good, Arrive, Timeless;
    if taken < |arrivals| && Taking(r, l, taken) {
      ArriveCloses(r, l, arrivals[taken]);
      DrainedCloses(Arrive(r, l, arrivals[taken]), l, arrivals, taken + 1);
    }
  }

  lemma FinishCloses<K(!new), I(!new), W(!new), S>(r: Reactor<K, I, W, S>, l: Limits, key: K, kept: Option<S>, at: nat)
    requires Good(r, l) && key in r.jobs && Closing(r)
    ensures Closing(Finish(r, l, key, kept, at))
  {
    hide Inv, LiveOk, CountsMatch, Complete, Place;
    var job := r.jobs[key];
    if job.Run? {
      CompleteShard(r, l, key, kept, at);
      CompleteEffect(r.book, l.cfg, key, job.cls, kept, at);
    } else {
      FlushedShard(r, l, key, at);
      FinishEvictEffect(r.book, key, at);
    }
  }

  lemma {:induction false} HarvestCloses<K(!new), I(!new), W(!new), S>(r: Reactor<K, I, W, S>, l: Limits,
                                                                      finished: seq<(K, Option<S>)>, i: nat,
                                                                        done: nat, at: nat)
    requires Good(r, l) && i <= |finished| && Closing(r)
    ensures Closing(Harvested(r, l, finished, i, done, at).0)
    decreases |finished| - i
  {
    hide Good, Finish, Closing;
    if i < |finished| && done < Clamp(l.completeBatch) {
      if finished[i].0 in r.jobs {
        FinishCloses(r, l, finished[i].0, finished[i].1, at);
        HarvestCloses(Finish(r, l, finished[i].0, finished[i].1, at), l, finished, i + 1, done + 1, at);
      } else {
        HarvestCloses(r, l, finished, i + 1, done, at);
      }
    }
  }

  lemma SweptCloses<K(!new), I(!new), W(!new), S>(r: Reactor<K, I, W, S>, l: Limits, now: nat)
    requires Good(r, l) && Closing(r)
    ensures Closing(Swept(r, l, now))
  {
    hide PlacesOk, AccountsOk, LiveOk, JobsOk, CountsMatch;
    if r.staged == [] {
      SweepShard(r, l, now);
      SweepEffect(r.book, l.cfg, now, l.cfg.evictIters);
    }
  }

  lemma ListenCloses<K(!new), I(!new), W(!new), S>(r: Reactor<K, I, W, S>, l: Limits, arrivals: seq<Envelope<K, I, W>>,
                                                   closes: bool)
    requires Good(r, l) && ArrivalsOk(arrivals, l) && r.open && Closing(r) && NoDeadlines(arrivals)
    ensures Closing(Listen(r, l, arrivals, closes))
  {
    hide Good, ArrivalsOk, Drained, NoDeadlines;
    DrainedCloses(r, l, arrivals, 0);
  }

  lemma ServeCloses<K(!new), I(!new), W(!new), S>(r: Reactor<K, I, W, S>, l: Limits, input: Input<K, I, W, S>)
    requires Good(r, l) && ArrivalsOk(input.arrivals, l) && Closing(r) && NoDeadlines(input.arrivals)
    ensures Closing(Serve(r, l, input))
  {
    hide Good, ArrivalsOk, Harvested, Swept, Closing, NoDeadlines, Listen;
    if r.open { ListenCloses(r, l, input.arrivals, input.closes); }
    var heard := if r.open then Listen(r, l, input.arrivals, input.closes) else r;
    HarvestCloses(heard, l, input.finished, 0, 0, input.at);
    if input.tick.Some? { SweptCloses(Harvested(heard, l, input.finished, 0, 0, input.at).0, l, input.tick.value); }
  }

  // ---- The end of a run -----------------------------------------------------------------------------

  /** When nothing is in flight, staged or being flushed, every key left is idle
      or in a ring. */
  lemma QuietKeys<K(!new), I(!new), W, S>(r: Reactor<K, I, W, S>, l: Limits)
    requires Good(r, l) && r.jobs == map[] && r.staged == []
    ensures r.book.running == map[] && r.book.evicting == 0 && forall c :: 0 <= c < |r.book.inflight| ==>
      r.book.inflight[c] == 0
    ensures forall k :: k in r.book.slots ==> r.book.slots[k].presence.Idle? || r.book.slots[k].presence.Ready?
  {
    hide PlacesOk, StateOk, ClassesOk, LiveOk;
    assert forall k :: k !in r.book.running;
    assert Quiesced(r.book.slots, {}) == {};
    assert forall c :: RunningIn(r.book.running, c) == {};
    forall k | k in r.book.slots
      ensures r.book.slots[k].presence.Idle? || r.book.slots[k].presence.Ready?
    {
      assert k !in Quiesced(r.book.slots, {}) && k !in Flying(r.book.slots, {});
    }
  }

  lemma {:induction false} EvictAllKeepsRings<K(!new), P, S>(b: Book<K, P, S>)
    requires IdleListed(b)
    ensures EvictAll(b).0.ready == b.ready
    decreases |b.idle|
  {
    if b.idle != [] { EvictAllKeepsRings(ReleaseOldest(b).0); }
  }

  /** With no ring and nothing in flight or idle, every key is quiesced. */
  lemma OnlyQuiesced<K(!new), P, S>(b: Book<K, P, S>, cfg: Config)
    requires Inv(b, cfg) && b.running == map[] && b.idle == [] && forall c :: 0 <= c < |b.ready| ==> b.ready[c] == []
    ensures forall k :: k in b.slots ==> b.slots[k].presence.Evicting?
  {
    hide StateOk, CountsOk, ClassesOk;
    forall k | k in b.slots ensures b.slots[k].presence.Evicting? {
      assert k !in Flying(b.slots, {});
    }
  }

  lemma IdleIsUnqueued<K(!new), P, S>(b: Book<K, P, S>, cfg: Config, k: K)
    requires Inv(b, cfg) && (forall c :: 0 <= c < |b.ready| ==> b.ready[c] == [])
    requires k in b.slots ==> b.slots[k].presence.Idle? || b.slots[k].presence.Ready?
    ensures QueueOf(b.slots, k) == []
  {
    hide AccountsOk;
  }

  /** The final flush leaves only quiesced keys, and none at all when it hands
      nothing over. */
  lemma FlushAllSettles<K(!new), I(!new), W(!new), S>(r: Reactor<K, I, W, S>, l: Limits)
    requires Good(r, l) && Quiet(r) && Closing(r) && forall c :: 0 <= c < |l.cfg.maxInflight| ==>
      l.cfg.maxInflight[c] >= 1
    requires forall c :: 0 <= c < |l.cfg.maxInflight| ==> Filled(r.book, l.cfg, c)
    ensures Closing(FlushAll(r, l))
  {
    hide PlacesOk, AccountsOk, LiveOk, JobsOk, CountsMatch, EvictAll;
    QuietKeys(r, l);
    RingCount(r, l);
    FinalShard(r, l);
    EvictAllEffect(r.book, l.cfg);
    EvictAllKeepsRings(r.book);
    forall c | 0 <= c < |r.book.ready| ensures r.book.ready[c] == [] {
      assert Filled(r.book, l.cfg, c);
    }
    var b := EvictAll(r.book).0;
    OnlyQuiesced(b, l.cfg);
    forall k ensures QueueOf(b.slots, k) == [] {
      IdleIsUnqueued(r.book, l.cfg, k);
    }
    assert forall k :: k in b.slots ==> b.slots[k].queue == QueueOf(b.slots, k);
  }

  /** Settled with nothing left to flush is empty. */
  lemma SettledIsEmpty<K(!new), I(!new), W, S>(r: Reactor<K, I, W, S>, l: Limits)
    requires Good(r, l) && Settled(r) && r.jobs == map[] && r.staged == []
    ensures r.book.slots == map[]
  {
    hide Good;
    QuietKeys(r, l);
  }

  ghost predicate Plain<K, I, W, S>(inputs: seq<Input<K, I, W, S>>) {
    forall i :: 0 <= i < |inputs| ==> NoDeadlines(inputs[i].arrivals)
  }

  lemma TurnCloses<K(!new), I(!new), W(!new), S>(r: Reactor<K, I, W, S>, l: Limits, input: Input<K, I, W, S>)
    requires Good(r, l) && ArrivalsOk(input.arrivals, l) && Closing(r) && NoDeadlines(input.arrivals)
    requires forall c :: 0 <= c < |l.cfg.maxInflight| ==> l.cfg.maxInflight[c] >= 1
    ensures Closing(Turn(r, l, input).0)
    ensures Turn(r, l, input).1 ==> Turn(r, l, input).0.book.slots == map[]
  {
    hide Good, ArrivalsOk, NoDeadlines, Begin, FlushAll, Serve, Timeless, Settled, Filled;
    BeginCloses(r, l, input.now);
    var begun := Begin(r, l, input.now);
    if Quiet(begun) {
      if begun.finalFlush {
        FlushAllSettles(begun, l);
        var flushed := FlushAll(begun, l);
        if flushed.staged == [] { SettledIsEmpty(flushed, l); }
      } else {
        SettledIsEmpty(begun, l);
      }
    } else {
      ServeCloses(begun, l, input);
    }
  }

  /** Over every run of work without deadlines, with some budget for each class:
      nothing is ever discarded, and a shard that ends leaves no key behind. */
  lemma {:induction false} EndLeavesNothing<K(!new), I(!new), W(!new), S>(l: Limits, inputs: seq<Input<K, I, W, S>>)
    requires InputsOk(inputs, l) && Plain(inputs)
    requires forall c :: 0 <= c < |l.cfg.maxInflight| ==> l.cfg.maxInflight[c] >= 1
    ensures Closing(Reached(l, inputs).0)
    ensures Reached(l, inputs).1 ==> Reached(l, inputs).0.book.slots == map[]
  {
    hide Good, ArrivalsOk, NoDeadlines, Turn, Settled;
    if inputs != [] {
      var n := |inputs| - 1;
      EndLeavesNothing(l, inputs[..n]);
      if !Reached(l, inputs[..n]).1 { TurnCloses(Reached(l, inputs[..n]).0, l, inputs[n]); }
    }
  }
}
