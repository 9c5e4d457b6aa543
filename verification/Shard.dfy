/** The shard reactor: one loop mutating the scheduler's book, the outstanding
    set, the live index, the staged evictions and the flush counter. Each method is
    a stage of the loop and does to the fields what that stage's function says. */
module ShardReactor {
  import opened Options
  import opened Sequences
  import opened Book
  import opened BookInvariant
  import R = BookRuns
  import T = BookTheorems
  import opened ShardEffects
  import opened ShardSteps
  import opened ShardLaws
  import opened ShardTurns

  class Shard<K(==, !new), I(==, !new), W, S> {
    const limits: Limits

    var book: Book<K, Stamped<I, W>, S>
    var live: set<(K, I)>
    var jobs: map<K, Job<I>>
    var staged: seq<(K, S)>
    var flushes: nat
    var coalesced: seq<(K, W)>
    var shed: seq<(K, W)>
    var open: bool
    var finalFlush: bool
    ghost var log: seq<R.Op<K, Stamped<I, W>, S>>

    ghost function State(): Reactor<K, I, W, S>
      reads this
    {
      Reactor(book, live, jobs, staged, flushes, coalesced, shed, open, finalFlush, log)
    }

    ghost predicate Valid()
      reads this
    {
      Good(State(), limits)
    }

    constructor (limits: Limits)
      ensures this.limits == limits && Valid() && State() == New(limits)
    {
      hide Good;
      this.limits := limits;
      book := Empty(|limits.cfg.maxInflight|);
      live, jobs, staged, flushes, coalesced, shed := {}, map[], [], 0, [], [];
      open, finalFlush, log := true, true, [];
      new;
      NewIsGood<K, I, W, S>(limits);
    }

    /** Start a future. The set was sized for the budgets, so it has room, and the
        key has no other. */
    method Push(key: K, job: Job<I>)
      requires key !in jobs && |jobs| < Sum(limits.cfg.maxInflight) + limits.flushSlots
      modifies `jobs
      ensures jobs == old(jobs)[key := job]
    {
      jobs := jobs[key := job];
    }

    /** Admit one arrival, unless it retries one still outstanding for its key. */
    method AdmitOne(e: Envelope<K, I, W>)
      requires Valid() && e.cls < |limits.cfg.maxInflight|
      modifies `book, `live, `coalesced, `log
      ensures Valid() && State() == Arrive(old(State()), limits, e)
      ensures ArriveStep(old(State()), State(), limits, e)
    {
      hide Good, Admit, ArriveStep;
      RingCount(State(), limits);
      ArriveCoalesces(State(), limits, e);
      if limits.coalesce && e.id.Some? && (e.key, e.id.value) in live {
        coalesced := coalesced + [(e.key, e.work)];
        return;
      }
      var tracked := if limits.coalesce then e.id else None;
      var item := Item(e.cls, e.expiresAt, Stamped(tracked, e.work));
      AdmitShard(State(), limits, e.key, item);
      live := live + Pairs(e.key, tracked);
      book := Admit(book, e.key, item);
      log := log + [R.OpAdmit(e.key, item)];
    }

    /** Dispatch from one class until its ring is empty or its budget full. */
    method DispatchClass(cls: nat, now: nat)
      returns (ghost states: seq<Reactor<K, I, W, S>>, ghost servings: seq<Serving<K, Stamped<I, W>, S>>)
      requires Valid() && cls < |book.ready|
      modifies `book, `jobs, `log
      ensures Valid() && State() == Fill(old(State()), limits, cls, now)
      // One call of `next` after another, up to the first that dispatches nothing.
      ensures Servings(states, servings, limits, cls, now) && servings != []
      ensures states[0] == old(State()) && states[|states| - 1] == State()
      ensures NextClass(servings[|servings| - 1]) == cls + 1 > servings[|servings| - 1].cls
    {
      hide Good, Next, Budget, DispatchStep;
      var more := true;
      states, servings := [State()], [];
      while more
        invariant Valid() && cls < |book.ready|
        invariant State() == old(State()).(book := book, jobs := jobs, log := log)
        invariant Fill(old(State()), limits, cls, now) == if more then Fill(State(), limits, cls, now) else State()
        invariant Servings(states, servings, limits, cls, now)
        invariant states[0] == old(State()) && states[|states| - 1] == State()
        invariant servings != [] ==> servings[|servings| - 1].cls == cls
        invariant more <==> servings == [] || servings[|servings| - 1].dispatch.Some?
        decreases more, Budget(book, limits.cfg, cls)
      {
        NextShard(State(), limits, cls, now);
        NextSpends(State(), limits, cls, now);
        ServedMeans(State(), limits, cls, now);
        ghost var before := State();
        var (next, dispatch) := Next(book, limits.cfg, cls, now);
        book := next;
        log := log + [R.OpNext(cls, now)];
        if dispatch.Some? {
          Push(dispatch.value.key, Run(dispatch.value.cls, dispatch.value.payload.id));
        } else {
          more := false;
        }
        ghost var serving := Serving(cls, dispatch);
        ServingsThen(states, servings, [before, State()], [serving], limits, cls, cls, now);
        states, servings := states + [before, State()][1..], servings + [serving];
      }
    }

    /** Fill every class budget from its own ring, in one pass over the classes. */
    method DispatchReady(now: nat)
      returns (ghost states: seq<Reactor<K, I, W, S>>, ghost servings: seq<Serving<K, Stamped<I, W>, S>>)
      requires Valid()
      modifies `book, `jobs, `log
      ensures Valid() && State() == FillFrom(old(State()), limits, 0, now)
      ensures PassLaw(states, servings, limits, now)
      ensures states[0] == old(State()) && states[|states| - 1] == State()
    {
      hide Good, Fill, DispatchStep;
      RingCount(State(), limits);
      states, servings := [State()], [];
      for cls := 0 to |limits.cfg.maxInflight|
        invariant Valid() && State() == old(State()).(book := book, jobs := jobs, log := log)
        invariant FillFrom(old(State()), limits, 0, now) == FillFrom(State(), limits, cls, now)
        invariant Servings(states, servings, limits, 0, now) && Reaches(servings, 0, cls)
        invariant states[0] == old(State()) && states[|states| - 1] == State()
      {
        RingCount(State(), limits);
        ghost var states', servings' := DispatchClass(cls, now);
        ServingsThen(states, servings, states', servings', limits, 0, cls, now);
        states, servings := states + states'[1..], servings + servings';
      }
    }

    /** Hand back everything discarded at dispatch, oldest first. */
    method ShedExpired()
      requires Valid()
      modifies `book, `live, `shed, `log
      ensures Valid() && State() == Shed(old(State()), limits)
      ensures ShedLaw(old(State()), State())
    {
      hide Good, Works, ShedLaw;
      ShedMeans(State(), limits);
      while book.expired != []
        invariant Valid() && Shed(old(State()), limits) == Shed(State(), limits)
        decreases |book.expired|
      {
        ShedShard(State(), limits);
        var (key, cls, stamped) := book.expired[0];
        live := live - Pairs(key, stamped.id);
        shed := shed + [(key, stamped.work)];
        book := PopExpired(book).0;
        log := log + [R.OpPopExpired];
      }
    }

    /** Move staged candidates into flight as the flush budget allows, oldest first. */
    method BeginFlushes()
      requires Valid()
      modifies `jobs, `staged, `flushes
      ensures Valid() && State() == StartFlushes(old(State()), limits)
      ensures FlushLaw(old(State()), State(), limits)
    {
      hide Good, StartFlushes, FlushLaw;
      FlushesFromTheFront(State(), limits);
      while flushes < limits.flushSlots && staged != []
        invariant Valid() && StartFlushes(old(State()), limits) == StartFlushes(State(), limits)
        decreases |staged|
      {
        FlushShard(State(), limits);
        FlushesOn(State(), limits);
        Push(staged[0].0, Flush);
        staged := staged[1..];
        flushes := flushes + 1;
      }
      FlushesOn(State(), limits);
    }

    /** Give the scheduler back one finished future. */
    method FinishOne(key: K, kept: Option<S>, at: nat)
      requires Valid() && key in jobs
      modifies `book, `live, `jobs, `flushes, `log
      ensures Valid() && State() == Finish(old(State()), limits, key, kept, at)
      ensures FinishStep(old(State()), State(), key, kept, at)
    {
      hide Good, Complete, FinishEvict, FinishStep;
      FinishMeans(State(), limits, key, kept, at);
      var job := jobs[key];
      if job.Run? {
        CompleteShard(State(), limits, key, kept, at);
        live := live - Pairs(key, job.id);
        book := Complete(book, key, job.cls, kept, at);
        log := log + [R.OpComplete(key, kept, at)];
      } else {
        FlushedShard(State(), limits, key, at);
        flushes := flushes - 1;
        book := FinishEvict(book, key, at);
        log := log + [R.OpFinishEvict(key, at)];
      }
      jobs := jobs - {key};
    }

    /** Harvest a bounded batch of what finished: the keys and the states returned. Of the
        futures outstanding, those that finished first leave, as many as the batch allows
        or all there are, and the count is their number. */
    method HarvestCompletions(finished: seq<(K, Option<S>)>, at: nat) returns (count: nat, ghost entries: nat)
      requires Valid()
      modifies `book, `live, `jobs, `flushes, `log
      ensures Valid() && (State(), count) == Harvested(old(State()), limits, finished, 0, 0, at)
      ensures HarvestLaw(old(State()), State(), limits, finished, entries, count, at)
      ensures |jobs| + count == |old(jobs)|
    {
      hide Good, Finish, FinishStep, Finished;
      count := 0;
      var i := 0;
      NoneFinished(State(), finished, at);
      while i < |finished| && count < Clamp(limits.completeBatch)
        invariant 0 <= i <= |finished| && Valid()
        invariant Harvested(old(State()), limits, finished, 0, 0, at) ==
          Harvested(State(), limits, finished, i, count, at)
        invariant Finished(old(State()), State(), finished, i, count, at) && count <= Clamp(limits.completeBatch)
      {
        if finished[i].0 in jobs {
          ghost var before := State();
          FinishOne(finished[i].0, finished[i].1, at);
          FinishedMore(old(State()), before, State(), finished, i, count, at);
          count := count + 1;
        } else {
          FinishedSkip(old(State()), State(), finished, i, count, at);
        }
        i := i + 1;
      }
      entries := i;
    }

    /** Take a bounded burst of arrivals, stopping when the scheduler is full, and
        notice the end of the mailbox when the burst gets that far. */
    method DrainInbox(arrivals: seq<Envelope<K, I, W>>, closes: bool)
      returns (count: nat, ghost states: seq<Reactor<K, I, W, S>>)
      requires Valid() && ArrivalsOk(arrivals, limits)
      modifies `book, `live, `coalesced, `open, `log
      ensures Valid() && State() == Listen(old(State()), limits, arrivals, closes)
      ensures ListenLaw(states, State(), limits, arrivals, closes)
      ensures states[0] == old(State()) && count == |states| - 1
    {
      hide Inv, LiveOk, JobsOk, CountsMatch, Arrive, ArriveStep;
      count, states := 0, [State()];
      while count < |arrivals| && count < Clamp(limits.admitBatch) && book.pending < limits.maxPending
        invariant 0 <= count <= |arrivals| && Valid()
        invariant Drained(old(State()), limits, arrivals, 0) == Drained(State(), limits, arrivals, count)
        invariant |states| == count + 1 && states[0] == old(State()) && states[count] == State() && open == old(open)
        invariant Takes(states, limits, arrivals)
      {
        ghost var states0 := states;
        AdmitOne(arrivals[count]);
        states := states + [State()];
        TakesMore(states0, State(), limits, arrivals);
        count := count + 1;
      }
      if closes && count == |arrivals| && count < Clamp(limits.admitBatch) && book.pending < limits.maxPending {
        open := false;
      }
    }

    /** The periodic sweep: only once the last batch has been handed over. */
    method Sweep(now: nat)
      requires Valid()
      modifies `book, `staged, `log
      ensures Valid() && State() == Swept(old(State()), limits, now)
      ensures SweepLaw(old(State()), State(), limits, now)
    {
      hide Good, Evict, SweepLaw;
      SweptKeys(State(), limits, now);
      if staged != [] { return; }
      SweepShard(State(), limits, now);
      var (next, out) := Evict(book, limits.cfg, now);
      book, staged := next, out;
      log := log + [R.OpEvict(now)];
    }

    /** The last flush: every resident state is handed over. */
    method FinalFlush()
      requires Valid() && staged == []
      modifies `book, `staged, `finalFlush, `log
      ensures Valid() && State() == FlushAll(old(State()), limits)
      ensures FinalLaw(old(State()), State())
    {
      hide Good, EvictAll, FinalLaw;
      FinalKeys(State(), limits);
      FinalShard(State(), limits);
      var (next, out) := EvictAll(book);
      book, staged, finalFlush := next, out, false;
      log := log + [R.OpEvictAll];
    }

    /** The turn's first stages: dispatch, hand back, flush. */
    method BeginTurn(now: nat) returns (ghost trail: Trail<K, I, W, S>)
      requires Valid()
      modifies `book, `live, `jobs, `staged, `flushes, `shed, `log
      ensures Valid() && State() == Begin(old(State()), limits, now)
      ensures BeginLaw(old(State()), State(), limits, now, trail) && trail.begun == State()
    {
      hide Good, FillFrom, Shed, StartFlushes, PassLaw, ShedLaw, FlushLaw;
      ghost var served, servings := DispatchReady(now);
      ShedExpired();
      ghost var dropped := State();
      BeginFlushes();
      trail := Trail(served, servings, dropped, State(), [], State(), State(), 0, 0);
    }

    /** Its last stages: listen, harvest, sweep. */
    method ServeTurn(input: Input<K, I, W, S>, ghost begun: Trail<K, I, W, S>) returns (ghost trail: Trail<K, I, W, S>)
      requires Valid() && ArrivalsOk(input.arrivals, limits)
      modifies this
      ensures Valid() && State() == Serve(old(State()), limits, input)
      ensures ServeLaw(old(State()), State(), limits, input, trail)
      ensures trail == begun.(taken := trail.taken, heard := trail.heard, harvested := trail.harvested,
                              entries := trail.entries, count := trail.count)
    {
      hide Good, ArrivalsOk, Listen, Harvested, Swept, ListenLaw, HarvestLaw, SweepLaw;
      ghost var taken := [];
      if open {
        var admitted, states := DrainInbox(input.arrivals, input.closes);
        taken := states;
      }
      ghost var heard := State();
      var harvested, entries := HarvestCompletions(input.finished, input.at);
      trail := begun.(taken := taken, heard := heard, harvested := State(), entries := entries, count := harvested);
      if input.tick.Some? { Sweep(input.tick.value); }
    }

    /** One turn of the loop, and whether the shard ended with it. */
    method RunTurn(input: Input<K, I, W, S>) returns (ended: bool, ghost trail: Trail<K, I, W, S>)
      requires Valid() && ArrivalsOk(input.arrivals, limits)
      modifies this
      ensures Valid() && (State(), ended) == Turn(old(State()), limits, input)
      ensures TurnLaw(old(State()), State(), ended, limits, input, trail)
      ensures |jobs| == Sum(book.inflight) + flushes <= Sum(limits.cfg.maxInflight) + limits.flushSlots
      ensures book.evicting == |staged| + flushes
    {
      hide Good, ArrivalsOk, Begin, FlushAll, Serve, BeginLaw, ServeLaw, FinalLaw;
      trail := BeginTurn(input.now);
      ghost var begun := trail;
      ended := false;
      if !open && jobs == map[] && staged == [] {
        ended := true;
        if finalFlush {
          FinalFlush();
          ended := staged == [];
        }
      } else {
        trail := ServeTurn(input, begun);
        SameBeginning(old(State()), begun.begun, limits, input.now, begun, trail);
      }
      OutstandingFits(State(), limits);
    }
  }
}
