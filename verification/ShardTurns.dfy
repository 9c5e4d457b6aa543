/** The reactor's stages as functions of its state, its turns and its runs, and
    what a run leaves behind when it ends. */
module ShardTurns {
  import opened Options
  import opened Sequences
  import opened Book
  import opened BookInvariant
  import L = BookLaws
  import R = BookRuns
  import T = BookTheorems
  import opened ShardEffects
  import opened ShardSteps
  import opened ShardLaws

  function Clamp(batch: nat): nat { if batch == 0 then 1 else batch }

  lemma RingCount<K(!new), I(!new), W, S>(r: Reactor<K, I, W, S>, l: Limits)
    requires Good(r, l)
    ensures |r.book.ready| == |r.book.inflight| == |l.cfg.maxInflight|
  {
    hide PlacesOk, CountsOk, StateOk, ClassesOk, LiveOk, JobsOk;
  }

  // ---- Stages --------------------------------------------------------------------------------

  /** Dispatch from one class until its ring is empty or its budget full. */
  ghost function Fill<K(!new), I(!new), W, S>(r: Reactor<K, I, W, S>, l: Limits, cls: nat,
                                              now: nat): (r': Reactor<K, I, W, S>)
    requires Good(r, l) && cls < |r.book.ready|
    ensures Good(r', l) && r' == r.(book := r'.book, jobs := r'.jobs, log := r'.log)
    ensures r.log <= r'.log
    decreases Budget(r.book, l.cfg, cls)
  {
    hide Good, Next, Budget;
    NextShard(r, l, cls, now);
    NextSpends(r, l, cls, now);
    var next := Served(r, l, cls, now);
    if Next(r.book, l.cfg, cls, now).1.Some? then Fill(next, l, cls, now) else next
  }

  /** The pass over the classes, from `cls` on. */
  ghost function FillFrom<K(!new), I(!new), W, S>(r: Reactor<K, I, W, S>, l: Limits, cls: nat, now: nat)
    : (r': Reactor<K, I, W, S>)
    requires Good(r, l) && cls <= |l.cfg.maxInflight|
    ensures Good(r', l) && r' == r.(book := r'.book, jobs := r'.jobs, log := r'.log)
    ensures r.log <= r'.log
    decreases |l.cfg.maxInflight| - cls
  {
    hide Good, Fill;
    RingCount(r, l);
    if cls == |l.cfg.maxInflight| then r else FillFrom(Fill(r, l, cls, now), l, cls + 1, now)
  }

  /** Hand back what was discarded. */
  ghost function Shed<K(!new), I(!new), W, S>(r: Reactor<K, I, W, S>, l: Limits): (r': Reactor<K, I, W, S>)
    requires Good(r, l)
    ensures Good(r', l)
    ensures r' == r.(book := r.book.(expired := []), live := r'.live, shed := r.shed + Works(r.book.expired),
      log := r'.log)
    ensures r.log <= r'.log
    decreases |r.book.expired|
  {
    hide Good, Works;
    if r.book.expired == [] then
      WorksNil<K, I, W>();
      r
    else
      ShedShard(r, l);
      WorksStep(r.shed, r.book.expired);
      Shed(ShedOne(r), l)
  }

  /** Start flushes from the front of the staged list. */
  ghost function StartFlushes<K(!new), I(!new), W, S>(r: Reactor<K, I, W, S>, l: Limits): (r': Reactor<K, I, W, S>)
    requires Good(r, l)
    ensures Good(r', l) && r' == r.(jobs := r'.jobs, staged := r'.staged, flushes := r'.flushes)
    decreases |r.staged|
  {
    hide Good;
    if r.flushes < l.flushSlots && r.staged != [] then
      FlushShard(r, l);
      StartFlushes(FlushOne(r), l)
    else r
  }

  lemma FlushesOn<K(!new), I(!new), W, S>(r: Reactor<K, I, W, S>, l: Limits)
    requires Good(r, l)
    ensures if r.flushes < l.flushSlots && r.staged != [] then
              Good(FlushOne(r), l) && StartFlushes(r, l) == StartFlushes(FlushOne(r), l)
            else StartFlushes(r, l) == r
  {
    hide Good;
    if r.flushes < l.flushSlots && r.staged != [] { FlushShard(r, l); }
  }

  /** They go from the front of the staged list, until none waits or the slots are full. */
  lemma {:induction false} FlushesFromTheFront<K(!new), I(!new), W, S>(r: Reactor<K, I, W, S>, l: Limits)
    requires Good(r, l)
    ensures FlushLaw(r, StartFlushes(r, l), l)
    decreases |r.staged|
  {
    hide Good, FlushLaw;
    FlushesWithin(r, l);
    if r.flushes < l.flushSlots && r.staged != [] {
      FlushShard(r, l);
      FlushesFromTheFront(FlushOne(r), l);
      FlushMore(r, StartFlushes(FlushOne(r), l), l);
    } else {
      NoneFlushed(r, l);
    }
  }

  lemma NoneFlushed<K(!new), I(!new), W, S>(r: Reactor<K, I, W, S>, l: Limits)
    requires r.staged == [] || r.flushes == l.flushSlots
    ensures FlushLaw(r, r, l)
  {
    assert KeysOf(r.staged[..0]) == [];
  }

  lemma FlushMore<K(!new), I(!new), W, S>(r: Reactor<K, I, W, S>, r': Reactor<K, I, W, S>, l: Limits)
    requires r.staged != [] && r.staged[0].0 !in r.jobs && FlushLaw(FlushOne(r), r', l)
    ensures FlushLaw(r, r', l)
  {
    var n := r'.flushes - r.flushes;
    assert KeysOf(r.staged[..n]) == [r.staged[0].0] + KeysOf(r.staged[1..][..n - 1]);
  }

  /** Every discard is handed back, oldest first. */
  lemma {:induction false} ShedMeans<K(!new), I(!new), W, S>(r: Reactor<K, I, W, S>, l: Limits)
    requires Good(r, l)
    ensures ShedLaw(r, Shed(r, l))
    decreases |r.book.expired|
  {
    hide Good, Works, ShedLaw;
    if r.book.expired == [] {
      NothingShed(r);
    } else {
      ShedShard(r, l);
      ShedMeans(ShedOne(r), l);
      ShedMore(r, Shed(ShedOne(r), l));
    }
  }

  lemma NothingShed<K(!new), I(!new), W, S>(r: Reactor<K, I, W, S>)
    requires r.book.expired == []
    ensures ShedLaw(r, r)
  {
  }

  /** The item an arrival becomes; its id is tracked only when coalescing. */
  function ItemOf<K, I, W>(e: Envelope<K, I, W>, l: Limits): Item<Stamped<I, W>> {
    Item(e.cls, e.expiresAt, Stamped(if l.coalesce then e.id else None, e.work))
  }

  /** One arrival: handed back if it retries one still outstanding for its key. */
  ghost function Arrive<K(!new), I(!new), W, S>(r: Reactor<K, I, W, S>, l: Limits,
                                                e: Envelope<K, I, W>): (r': Reactor<K, I, W, S>)
    requires Good(r, l) && e.cls < |l.cfg.maxInflight|
    ensures Good(r', l) && r' == r.(book := r'.book, live := r'.live, coalesced := r'.coalesced, log := r'.log)
    ensures r.log <= r'.log
  {
    hide Inv, LiveOk, JobsOk, CountsMatch, Admit;
    RingCount(r, l);
    if l.coalesce && e.id.Some? && (e.key, e.id.value) in r.live then r.(coalesced := r.coalesced + [(e.key, e.work)])
    else
      var item := ItemOf(e, l);
      AdmitShard(r, l, e.key, item);
      Admitted(r, e.key, item)
  }

  ghost predicate ArrivalsOk<K, I, W>(arrivals: seq<Envelope<K, I, W>>, l: Limits) {
    forall i :: 0 <= i < |arrivals| ==> arrivals[i].cls < |l.cfg.maxInflight|
  }

  /** Another arrival may be taken: the batch is not used up and the scheduler is
      not saturated. */
  predicate Taking<K, I, W, S>(r: Reactor<K, I, W, S>, l: Limits, taken: nat) {
    taken < Clamp(l.admitBatch) && r.book.pending < l.maxPending
  }

  /** Take a bounded burst, and how many were taken. */
  ghost function Drained<K(!new), I(!new), W, S>(r: Reactor<K, I, W, S>, l: Limits, arrivals: seq<Envelope<K, I, W>>,
                                                 taken: nat)
    : (out: (Reactor<K, I, W, S>, nat))
    requires Good(r, l) && ArrivalsOk(arrivals, l) && taken <= |arrivals|
    ensures Good(out.0, l) && out.1 <= |arrivals|
    ensures out.0 == r.(book := out.0.book, live := out.0.live, coalesced := out.0.coalesced, log := out.0.log)
    ensures r.log <= out.0.log
    decreases |arrivals| - taken
  {
    hide Good, Arrive;
    if taken < |arrivals| && Taking(r, l, taken) then Drained(Arrive(r, l, arrivals[taken]), l, arrivals, taken + 1)
    else (r, taken)
  }

  /** The burst, and whether the end of the mailbox was reached. */
  ghost function Listen<K(!new), I(!new), W, S>(r: Reactor<K, I, W, S>, l: Limits, arrivals: seq<Envelope<K, I, W>>,
                                                closes: bool)
    : (r': Reactor<K, I, W, S>)
    requires Good(r, l) && ArrivalsOk(arrivals, l)
    ensures Good(r', l) && r.log <= r'.log
  {
    hide Inv, LiveOk, JobsOk, CountsMatch, Drained;
    var (r', taken) := Drained(r, l, arrivals, 0);
    r'.(open := r.open && !(closes && taken == |arrivals| && Taking(r', l, taken)))
  }

  /** A future finished: a dispatch gives back its key's state, a flush its slot. */
  ghost function Finish<K(!new), I(!new), W, S>(r: Reactor<K, I, W, S>, l: Limits, key: K, kept: Option<S>, at: nat)
    : (r': Reactor<K, I, W, S>)
    requires Good(r, l) && key in r.jobs
    ensures Good(r', l)
    ensures r' == r.(book := r'.book, live := r'.live, jobs := r.jobs - {key}, flushes := r'.flushes, log := r'.log)
    ensures r.log <= r'.log
  {
    hide Good, Complete, FinishEvict;
    var job := r.jobs[key];
    if job.Run? then
      CompleteShard(r, l, key, kept, at);
      Completed(r, key, kept, at)
    else
      FlushedShard(r, l, key, at);
      FlushDone(r, key, at)
  }

  /** Finish, in the order given, at most a batch of the futures outstanding. */
  ghost function Harvested<K(!new), I(!new), W, S>(r: Reactor<K, I, W, S>, l: Limits, finished: seq<(K, Option<S>)>,
                                                   i: nat, done: nat, at: nat): (out: (Reactor<K, I, W, S>, nat))
    requires Good(r, l) && i <= |finished|
    ensures Good(out.0, l)
    ensures out.0 ==
      r.(book := out.0.book, live := out.0.live, jobs := out.0.jobs, flushes := out.0.flushes, log := out.0.log)
    ensures r.log <= out.0.log
    ensures out.1 >= done && |out.0.jobs| + out.1 == |r.jobs| + done &&
      (done <= Clamp(l.completeBatch) ==> out.1 <= Clamp(l.completeBatch))
    decreases |finished| - i
  {
    hide Good, Finish;
    if i < |finished| && done < Clamp(l.completeBatch) then
      if finished[i].0 in r.jobs then
        JobRemoved(r.jobs, finished[i].0);
        Harvested(Finish(r, l, finished[i].0, finished[i].1, at), l, finished, i + 1, done + 1, at)
      else Harvested(r, l, finished, i + 1, done, at)
    else (r, done)
  }

  /** The periodic sweep, only once the last batch has been handed over. */
  ghost function Swept<K(!new), I(!new), W, S>(r: Reactor<K, I, W, S>, l: Limits, now: nat): (r': Reactor<K, I, W, S>)
    requires Good(r, l)
    ensures Good(r', l) && r' == r.(book := r'.book, staged := r'.staged, log := r'.log)
    ensures r.log <= r'.log
  {
    hide Good, Evict;
    if r.staged != [] then r
    else
      SweepShard(r, l, now);
      Staged(r, l, now)
  }

  /** Every resident state is staged, once. */
  ghost function FlushAll<K(!new), I(!new), W, S>(r: Reactor<K, I, W, S>, l: Limits): (r': Reactor<K, I, W, S>)
    requires Good(r, l) && r.staged == []
    ensures Good(r', l) && r'.book.idle == []
    ensures r' == r.(book := r'.book, staged := r'.staged, finalFlush := false, log := r'.log)
    ensures r.log <= r'.log
  {
    hide Good, EvictAll;
    FinalShard(r, l);
    StagedAll(r)
  }

  // ---- Turns and runs -----------------------------------------------------------------------------

  ghost function Begin<K(!new), I(!new), W, S>(r: Reactor<K, I, W, S>, l: Limits, now: nat): (r': Reactor<K, I, W, S>)
    requires Good(r, l)
    ensures Good(r', l) && r.log <= r'.log
  {
    hide Good, FillFrom, Shed, StartFlushes;
    StartFlushes(Shed(FillFrom(r, l, 0, now), l), l)
  }

  /** Nothing can arrive and nothing is in flight or waiting to be flushed. */
  predicate Quiet<K, I, W, S>(r: Reactor<K, I, W, S>) {
    !r.open && r.jobs == map[] && r.staged == []
  }

  ghost function Serve<K(!new), I(!new), W, S>(r: Reactor<K, I, W, S>, l: Limits, input: Input<K, I, W, S>)
    : (r': Reactor<K, I, W, S>)
    requires Good(r, l) && ArrivalsOk(input.arrivals, l)
    ensures Good(r', l) && r.log <= r'.log
  {
    hide Good, ArrivalsOk, Listen, Harvested, Swept;
    var heard := if r.open then Listen(r, l, input.arrivals, input.closes) else r;
    var harvested := Harvested(heard, l, input.finished, 0, 0, input.at).0;
    if input.tick.Some? then Swept(harvested, l, input.tick.value) else harvested
  }

  /** One turn, and whether the shard ended with it: dispatch, shed and flush; then,
      when quiet, flush what is resident once and end when nothing is left to
      flush; otherwise listen, harvest and sweep. */
  ghost function Turn<K(!new), I(!new), W, S>(r: Reactor<K, I, W, S>, l: Limits, input: Input<K, I, W, S>)
    : (out: (Reactor<K, I, W, S>, bool))
    requires Good(r, l) && ArrivalsOk(input.arrivals, l)
    ensures Good(out.0, l) && r.log <= out.0.log
  {
    hide Good, ArrivalsOk, Begin, FlushAll, Serve;
    var begun := Begin(r, l, input.now);
    if Quiet(begun) then
      if begun.finalFlush then
        var flushed := FlushAll(begun, l);
        (flushed, flushed.staged == [])
      else (begun, true)
    else (Serve(begun, l, input), false)
  }

  ghost predicate InputsOk<K, I, W, S>(inputs: seq<Input<K, I, W, S>>, l: Limits) {
    forall i :: 0 <= i < |inputs| ==> ArrivalsOk(inputs[i].arrivals, l)
  }

  /** A run from a fresh shard: a turn for each input until the shard ends. */
  ghost function Reached<K(!new), I(!new), W, S>(l: Limits,
                                                 inputs: seq<Input<K, I, W, S>>): (out: (Reactor<K, I, W, S>, bool))
    requires InputsOk(inputs, l)
    ensures Good(out.0, l)
  {
    hide Good, ArrivalsOk, Turn, New;
    NewIsGood<K, I, W, S>(l);
    if inputs == [] then (New(l), false)
    else
      var n := |inputs| - 1;
      var (r, ended) := Reached(l, inputs[..n]);
      if ended then (r, true) else Turn(r, l, inputs[n])
  }

  /** Over every run: futures are the keys in flight and the flushes, and never
      more than the set holds; quiesced keys are those staged or flushing; and the
      live index holds exactly the pairs tracked, none twice. */
  lemma RunAccounts<K(!new), I(!new), W, S>(l: Limits, inputs: seq<Input<K, I, W, S>>, k: K, id: I)
    requires InputsOk(inputs, l)
    ensures var r := Reached(l, inputs).0;
      && |r.jobs| == Sum(r.book.inflight) + r.flushes <= Sum(l.cfg.maxInflight) + l.flushSlots
      && r.book.evicting == |r.staged| + r.flushes
      && TrackedIds(r.book, r.jobs, k)[id] == if (k, id) in r.live then 1 else 0
  {
    hide Inv, TrackedIds, JobsOk, Reached, InputsOk;
    var r := Reached(l, inputs).0;
    OutstandingFits(r, l);
  }

  lemma {:induction false} QueuedIdsAre<I, W>(items: seq<Item<Stamped<I, W>>>, id: I)
    ensures id in QueuedIds(items) <==> exists item :: item in items && item.payload.id == Some(id)
  {
    if items != [] {
      var n := |items| - 1;
      QueuedIdsAre(items[..n], id);
      assert items[n] in items && forall item :: item in items ==> item in items[..n] || item == items[n];
      assert forall item :: item in items[..n] ==> item in items;
    }
  }

  lemma {:induction false} UnshedIdsAre<K, I, W>(expired: seq<(K, nat, Stamped<I, W>)>, k: K, id: I)
    ensures id in UnshedIds(expired, k) <==> Discarded(expired, k, id)
  {
    if expired != [] {
      var n := |expired| - 1;
      UnshedIdsAre(expired[..n], k, id);
      if Discarded(expired[..n], k, id) {
        var i :| 0 <= i < n && expired[..n][i].0 == k && expired[..n][i].2.id == Some(id);
        assert expired[i].0 == k;
      }
      if Discarded(expired, k, id) {
        var i :| 0 <= i < |expired| && expired[i].0 == k && expired[i].2.id == Some(id);
        if i < n { assert expired[..n][i].0 == k; }
      }
    }
  }

  /** The live index holds exactly the outstanding pairs. */
  lemma LiveIsOutstanding<K(!new), I(!new), W, S>(r: Reactor<K, I, W, S>, l: Limits, k: K, id: I)
    requires Good(r, l)
    ensures (k, id) in r.live <==> Outstands(r, k, id)
  {
    hide Inv, JobsOk, CountsMatch, QueuedIds, UnshedIds, Discarded;
    LiveTracks(r, l, k, id);
    QueuedIdsAre(QueueOf(r.book.slots, k), id);
    UnshedIdsAre(r.book.expired, k, id);
  }

  /** A retry is handed back exactly when its pair is queued, in flight, or
      discarded and not yet handed back; anything else joins its key's queue. */
  lemma ArriveCoalesces<K(!new), I(!new), W, S>(r: Reactor<K, I, W, S>, l: Limits, e: Envelope<K, I, W>)
    requires Good(r, l) && e.cls < |l.cfg.maxInflight|
    ensures ArriveStep(r, Arrive(r, l, e), l, e)
  {
    hide Good, Outstands, Admit;
    RingCount(r, l);
    if l.coalesce && e.id.Some? { LiveIsOutstanding(r, l, e.key, e.id.value); }
    if !(l.coalesce && e.id.Some? && (e.key, e.id.value) in r.live) {
      AdmitShard(r, l, e.key, ItemOf(e, l));
      AdmitEffect(r.book, e.key, ItemOf(e, l));
      R.AdmitShape(r.book, e.key, ItemOf(e, l));
      AdmitPresence(r.book, e.key, ItemOf(e, l));
    }
  }

  lemma AdmitPresence<K, P, S>(b: Book<K, P, S>, key: K, item: Item<P>)
    requires item.cls < |b.ready| && (key in b.slots && b.slots[key].presence.Idle? ==> b.slots[key].queue == [])
    ensures key in Admit(b, key, item).slots
    ensures Admit(b, key, item).slots[key].presence ==
      if key in b.slots && !b.slots[key].presence.Idle? then b.slots[key].presence else Ready(item.cls)
  {
  }

  /** What a finished future means: nothing queued moves and only its key stops
      being out. A dispatch forgets its pair and leaves its key what it kept; a flush
      gives its slot back and leaves its key nothing but queued work. */
  lemma FinishMeans<K(!new), I(!new), W, S>(r: Reactor<K, I, W, S>, l: Limits, key: K, kept: Option<S>, at: nat)
    requires Good(r, l) && key in r.jobs
    ensures FinishStep(r, Finish(r, l, key, kept, at), key, kept, at)
  {
    hide Good, FinishStep;
    if r.jobs[key].Run? { RunFinishes(r, l, key, kept, at); } else { FlushFinishes(r, l, key, kept, at); }
  }

  lemma RunFinishes<K(!new), I(!new), W, S>(r: Reactor<K, I, W, S>, l: Limits, key: K, kept: Option<S>, at: nat)
    requires Good(r, l) && key in r.jobs && r.jobs[key].Run?
    ensures Returnable(r, key) && FinishStep(r, Completed(r, key, kept, at), key, kept, at)
  {
    hide Inv, LiveOk, CountsMatch, Complete, Evicted;
    var job := r.jobs[key];
    CompleteShard(r, l, key, kept, at);
    CompleteEffect(r.book, l.cfg, key, job.cls, kept, at);
    R.CompleteShape(r.book, key, job.cls, kept, at);
    CompletePresence(r.book, key, job.cls, kept, at);
  }

  lemma FlushFinishes<K(!new), I(!new), W, S>(r: Reactor<K, I, W, S>, l: Limits, key: K, kept: Option<S>, at: nat)
    requires Good(r, l) && key in r.jobs && r.jobs[key].Flush?
    ensures Returnable(r, key) && FinishStep(r, FlushDone(r, key, at), key, kept, at)
  {
    hide Good, FinishEvict, Evicted;
    FlushedShard(r, l, key, at);
    R.FinishEvictShape(r.book, key, at);
    FlushedPresence(r.book, key, at);
    FlushedState(r, l, key);
  }

  lemma CompletePresence<K, P, S>(b: Book<K, P, S>, key: K, cls: nat, kept: Option<S>, at: nat)
    requires key in b.slots && cls < |b.inflight|
    requires b.slots[key].queue != [] ==> b.slots[key].queue[0].cls < |b.ready|
    ensures var b' := Complete(b, key, cls, kept, at);
      && key in b'.slots
      && if b.slots[key].queue == [] then b'.slots[key].presence == Idle && b'.slots[key].idleSince == at
         else b'.slots[key].presence == Ready(b.slots[key].queue[0].cls)
  {
  }

  lemma FlushedPresence<K, P, S>(b: Book<K, P, S>, key: K, at: nat)
    requires key in b.slots
    requires b.slots[key].queue != [] ==> b.slots[key].queue[0].cls < |b.ready|
    ensures var b' := FinishEvict(b, key, at);
      && (key in b'.slots <==> b.slots[key].queue != [])
      && (key in b'.slots ==> b'.slots[key].presence == Ready(b.slots[key].queue[0].cls))
  {
  }

  /** A key being flushed gave up its state, and none of its items is in flight. */
  lemma FlushedState<K(!new), I(!new), W, S>(r: Reactor<K, I, W, S>, l: Limits, key: K)
    requires Good(r, l) && key in r.jobs && r.jobs[key].Flush?
    ensures key in r.book.slots && r.book.slots[key].resident == None && key !in r.book.running
  {
    hide PlacesOk, CountsOk, ClassesOk, LiveOk, CountsMatch;
  }

  /** The rest of a harvest finishes what is left for it to finish. */
  lemma {:induction false} HarvestGoesOn<K(!new), I(!new), W, S>(r: Reactor<K, I, W, S>, r1: Reactor<K, I, W, S>,
                                                               l: Limits, finished: seq<(K, Option<S>)>, i: nat,
                                                               done: nat, at: nat)
    returns (p: nat)
    requires Good(r1, l) && Finished(r, r1, finished, i, done, at)
    requires done <= if l.completeBatch == 0 then 1 else l.completeBatch
    ensures HarvestLaw(r, Harvested(r1, l, finished, i, done, at).0, l, finished, p,
                       Harvested(r1, l, finished, i, done, at).1, at)
    decreases |finished| - i
  {
    hide Good, Finish, Finished, FinishStep;
    EntriesWithin(r, r1, finished, i, done, at);
    p := i;
    if i < |finished| && done < Clamp(l.completeBatch) {
      if finished[i].0 in r1.jobs {
        FinishMeans(r1, l, finished[i].0, finished[i].1, at);
        var r2 := Finish(r1, l, finished[i].0, finished[i].1, at);
        FinishedMore(r, r1, r2, finished, i, done, at);
        p := HarvestGoesOn(r, r2, l, finished, i + 1, done + 1, at);
      } else {
        FinishedSkip(r, r1, finished, i, done, at);
        p := HarvestGoesOn(r, r1, l, finished, i + 1, done, at);
      }
    }
  }

  lemma EntriesWithin<K(!new), I(!new), W, S>(r: Reactor<K, I, W, S>, r1: Reactor<K, I, W, S>,
                                              finished: seq<(K, Option<S>)>, i: nat, done: nat, at: nat)
    requires Finished(r, r1, finished, i, done, at)
    ensures i <= |finished|
  {
  }

  /** What a harvest means: of the futures outstanding, those first to finish leave, as
      many as the batch allows or all there are, and each key stands as its future left it. */
  lemma HarvestMeans<K(!new), I(!new), W, S>(r: Reactor<K, I, W, S>, l: Limits, finished: seq<(K, Option<S>)>, at: nat)
    returns (p: nat)
    requires Good(r, l)
    ensures HarvestLaw(r, Harvested(r, l, finished, 0, 0, at).0, l, finished, p,
                       Harvested(r, l, finished, 0, 0, at).1, at)
  {
    hide Good, Harvested, HarvestLaw, Finished;
    NoneFinished(r, finished, at);
    p := HarvestGoesOn(r, r, l, finished, 0, 0, at);
  }

  /** One call of `next` starts what it dispatched. */
  lemma ServedMeans<K(!new), I(!new), W, S>(r: Reactor<K, I, W, S>, l: Limits, cls: nat, now: nat)
    requires Good(r, l) && cls < |r.book.ready|
    ensures Drainable(r.book) && |r.book.ready| == |l.cfg.maxInflight|
    ensures DispatchStep(r, Served(r, l, cls, now), l, Serving(cls, Next(r.book, l.cfg, cls, now).1), now)
  {
    hide Inv, LiveOk, JobsOk, CountsMatch, Next, L.DispatchLaw;
    NextShard(r, l, cls, now);
    L.NextLaw(r.book, l.cfg, cls, now);
    L.DispatchedClass(r.book, Next(r.book, l.cfg, cls, now).0, Next(r.book, l.cfg, cls, now).1, l.cfg, cls, now);
  }

  /** What a sweep stages: the longest idle keys, each for a reason. */
  lemma SweptKeys<K(!new), I(!new), W, S>(r: Reactor<K, I, W, S>, l: Limits, now: nat)
    requires Good(r, l)
    ensures SweepLaw(r, Swept(r, l, now), l, now)
  {
    hide PlacesOk, AccountsOk, LiveOk, JobsOk, CountsMatch, T.Swept;
    if r.staged == [] {
      SweepShard(r, l, now);
      var m := T.SweepReleases(r.book, l.cfg, now, l.cfg.evictIters);
    }
  }

  /** What the final flush stages: the states of the idle keys, all of them. */
  lemma FinalKeys<K(!new), I(!new), W, S>(r: Reactor<K, I, W, S>, l: Limits)
    requires Good(r, l) && r.staged == []
    ensures FinalLaw(r, FlushAll(r, l))
  {
    hide PlacesOk, AccountsOk, LiveOk, JobsOk, CountsMatch, T.Collect, T.Released, EvictAll;
    FinalShard(r, l);
    T.EvictAllReleases(r.book, l.cfg);
  }
}
