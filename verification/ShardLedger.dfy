/** A shard's run is a run of the scheduler's book: the operations it makes are
    each allowed where they happen, so its items and states have the book's ledger. */
module ShardLedger {
  import opened Options
  import opened Sequences
  import opened Book
  import opened BookInvariant
  import opened ShardEffects
  import opened ShardSteps
  import opened ShardLaws
  import opened ShardTurns
  import opened ShardClosing
  import R = BookRuns
  import T = BookTheorems

  // ---- The log -------------------------------------------------------------------------------

  function TimeOf<K, P, S>(op: R.Op<K, P, S>): Option<nat> {
    match op
    case OpAdmit(_, _) => None
    case OpNext(_, now) => Some(now)
    case OpPopExpired => None
    case OpComplete(_, _, now) => Some(now)
    case OpEvict(now) => Some(now)
    case OpEvictAll => None
    case OpFinishEvict(_, now) => Some(now)
  }

  /** The clock the operations were given never ran backwards. */
  ghost predicate Ordered<K, P, S>(log: seq<R.Op<K, P, S>>) {
    forall i, j :: 0 <= i < j < |log| && TimeOf(log[i]).Some? && TimeOf(log[j]).Some? ==>
      TimeOf(log[i]).value <= TimeOf(log[j]).value
  }

  /** The clock of a book is the last one it was given. */
  ghost predicate Timed<K, P, S>(log: seq<R.Op<K, P, S>>, clock: nat) {
    clock == 0 || exists i :: 0 <= i < |log| && TimeOf(log[i]) == Some(clock)
  }

  /** The ledger kept beside the shard's operations: it reaches the shard's own book,
      and what the shard handed back is what expired, in order, but the last few. */
  ghost predicate Ledger<K(!new), I(!new), W, S>(r: Reactor<K, I, W, S>, l: Limits,
                                                 ws: seq<R.World<K, Stamped<I, W>, S>>) {
    && T.Run(l.cfg, ws, r.log) && ws[0] == R.Begin(l.cfg)
    && ws[|r.log|].book == r.book && Timed(r.log, ws[|r.log|].clock)
    && ws[|r.log|].shed <= |ws[|r.log|].lost| && Works(ws[|r.log|].lost[..ws[|r.log|].shed]) == r.shed
  }

  /** What one operation does to the book alone. */
  ghost predicate Follows<K(!new), P, S>(b: Book<K, P, S>, cfg: Config, op: R.Op<K, P, S>, b': Book<K, P, S>)
    requires Inv(b, cfg)
  {
    InvDrainable(b, cfg, {});
    match op
    case OpAdmit(key, item) =>
      && item.cls < |b.ready| && (key in b.slots && b.slots[key].presence.Idle? ==> b.slots[key].queue == [])
      && b' == Admit(b, key, item)
    case OpNext(cls, now) => cls < |b.ready| == |cfg.maxInflight| && b' == Next(b, cfg, cls, now).0
    case OpPopExpired => b' == PopExpired(b).0
    case OpComplete(key, kept, now) =>
      && key in b.running && key in b.slots && b.running[key] < |b.inflight|
      && (b.slots[key].queue != [] ==> b.slots[key].queue[0].cls < |b.ready|)
      && b' == Complete(b, key, b.running[key], kept, now)
    case OpEvict(now) => b' == Evict(b, cfg, now).0
    case OpEvictAll => b' == EvictAll(b).0
    case OpFinishEvict(key, now) =>
      && key in b.slots && b.slots[key].presence.Evicting?
      && (b.slots[key].queue != [] ==> b.slots[key].queue[0].cls < |b.ready|)
      && b' == FinishEvict(b, key, now)
  }

  function Pops<K, P, S>(b: Book<K, P, S>, op: R.Op<K, P, S>): nat {
    if op.OpPopExpired? && b.expired != [] then 1 else 0
  }

  // ---- One operation ----------------------------------------------------------------------------

  /** What the ledger of one operation adds beside the book. */
  ghost predicate Adds<K(!new), P, S>(w: R.World<K, P, S>, w': R.World<K, P, S>, op: R.Op<K, P, S>, b': Book<K, P, S>) {
    && w'.book == b' && w.lost <= w'.lost && w'.shed == w.shed + Pops(w.book, op)
    && w'.clock == if TimeOf(op).Some? then TimeOf(op).value else w.clock
  }

  lemma {:induction false} DrainAdds<K(!new), P, S>(w: R.World<K, P, S>, cls: nat, now: nat)
    requires Drainable(w.book) && cls < |w.book.ready|
    ensures var w' := R.DrainW(w, cls, now);
      w'.book == Drain(w.book, cls, now).0 && w.lost <= w'.lost && w'.shed == w.shed && w'.clock == w.clock
    decreases |w.book.ready[cls]|
  {
    hide TakeFront;
    if w.book.ready[cls] != [] {
      TakeFrontShrinks(w.book, cls, now);
      if TakeFront(w.book, cls, now).1.None? { DrainAdds(R.TakeFrontW(w, cls, now), cls, now); }
    }
  }

  lemma {:induction false} SweepAdds<K(!new), P, S>(w: R.World<K, P, S>, cfg: Config, now: nat, iters: nat)
    requires Inv(w.book, cfg) && IdleListed(w.book)
    ensures var w' := R.SweepW(w, cfg, now, iters);
      w'.book == Sweep(w.book, cfg, now, iters).0 && w'.lost == w.lost && w'.shed == w.shed && w'.clock == w.clock
    decreases iters
  {
    hide ReleaseOldest, InvHeld;
    if iters > 0 && w.book.idle != [] && (OldEnough(w.book, cfg, w.book.idle[0], now) || OverCapacity(w.book, cfg)) {
      ReleaseOldestKeeps(w.book, cfg);
      InvDrainable(ReleaseOldest(w.book).0, cfg, {});
      SweepAdds(R.ReleaseOldestW(w), cfg, now, iters - 1);
    }
  }

  lemma {:induction false} EvictAllAdds<K(!new), P, S>(w: R.World<K, P, S>, cfg: Config)
    requires Inv(w.book, cfg) && IdleListed(w.book)
    ensures var w' := R.EvictAllW(w);
      w'.book == EvictAll(w.book).0 && w'.lost == w.lost && w'.shed == w.shed && w'.clock == w.clock
    decreases |w.book.idle|
  {
    hide Release, InvHeld;
    if w.book.idle != [] {
      ReleaseOldestKeeps(w.book, cfg);
      ReleaseShortens(w.book, w.book.idle[0]);
      InvDrainable(ReleaseOldest(w.book).0, cfg, {});
      EvictAllAdds(R.ReleaseOldestW(w), cfg);
    }
  }

  lemma StepAdds<K(!new), P, S>(w: R.World<K, P, S>, cfg: Config, op: R.Op<K, P, S>, b': Book<K, P, S>)
    requires Inv(w.book, cfg) && Follows(w.book, cfg, op, b') && (TimeOf(op).Some? ==> w.clock <= TimeOf(op).value)
    ensures R.Allowed(w, op) && Adds(w, R.Step(w, cfg, op), op, b')
  {
    hide InvHeld, Admit, Complete, FinishEvict, Drain, Sweep, EvictAll;
    InvDrainable(w.book, cfg, {});
    match op
    case OpAdmit(_, _) =>
    case OpNext(cls, now) => DrainAdds(w.(clock := now), cls, now);
    case OpPopExpired =>
    case OpComplete(_, _, _) =>
    case OpEvict(now) => SweepAdds(w.(clock := now), cfg, now, cfg.evictIters);
    case OpEvictAll => EvictAllAdds(w, cfg);
    case OpFinishEvict(_, _) =>
  }

  lemma OrderedPrefix<K, P, S>(log: seq<R.Op<K, P, S>>, log': seq<R.Op<K, P, S>>)
    requires Ordered(log') && log <= log'
    ensures Ordered(log)
  {
  }

  lemma TimedNext<K, P, S>(log: seq<R.Op<K, P, S>>, op: R.Op<K, P, S>, clock: nat)
    requires Ordered(log + [op]) && Timed(log, clock)
    ensures TimeOf(op).Some? ==> clock <= TimeOf(op).value
    ensures Timed(log + [op], if TimeOf(op).Some? then TimeOf(op).value else clock)
  {
    var log' := log + [op];
    assert log'[|log|] == op;
    if clock != 0 {
      var i :| 0 <= i < |log| && TimeOf(log[i]) == Some(clock);
      assert log'[i] == log[i];
    }
  }

  /** One more operation, and what it hands back. */
  lemma LedgerMore<K(!new), I(!new), W, S>(r: Reactor<K, I, W, S>, l: Limits, ws: seq<R.World<K, Stamped<I, W>, S>>,
                                           op: R.Op<K, Stamped<I, W>, S>, r': Reactor<K, I, W, S>)
    returns (ws': seq<R.World<K, Stamped<I, W>, S>>)
    requires Good(r, l) && Ledger(r, l, ws) && r'.log == r.log + [op] && Ordered(r'.log)
    requires Inv(r.book, l.cfg) && Follows(r.book, l.cfg, op, r'.book)
    requires r'.shed == r.shed + Works(r.book.expired[..Pops(r.book, op)])
    ensures Ledger(r', l, ws')
  {
    hide Good, Inv, Follows, R.Allowed, R.Step, R.WorldOk, Ordered, Timed;
    var n := |r.log|;
    var w := ws[n];
    TimedNext(r.log, op, w.clock);
    StepAdds(w, l.cfg, op, r'.book);
    ws' := ws + [R.Step(w, l.cfg, op)];
    RunMore(l.cfg, ws, r.log, op);
    T.BeginOk<K, Stamped<I, W>, S>(l.cfg);
    T.RunKeeps(l.cfg, ws, r.log, n);
    HandsBack(w, ws'[n + 1], l.cfg, r.shed, Pops(r.book, op));
  }

  lemma RunMore<K(!new), P, S>(cfg: Config, ws: seq<R.World<K, P, S>>, ops: seq<R.Op<K, P, S>>, op: R.Op<K, P, S>)
    requires T.Run(cfg, ws, ops) && Inv(ws[|ops|].book, cfg) && R.Allowed(ws[|ops|], op)
    ensures T.Run(cfg, ws + [R.Step(ws[|ops|], cfg, op)], ops + [op])
  {
    hide Inv, R.Allowed, R.Step;
  }

  lemma HandsBack<K(!new), I, W, S>(w: R.World<K, Stamped<I, W>, S>, w': R.World<K, Stamped<I, W>, S>, cfg: Config,
                                    shed: seq<(K, W)>, pops: nat)
    requires R.WorldOk(w, cfg) && w.lost <= w'.lost && w'.shed == w.shed + pops && pops <= |w.book.expired|
    requires w.shed <= |w.lost| && Works(w.lost[..w.shed]) == shed
    ensures w'.shed <= |w'.lost| && Works(w'.lost[..w'.shed]) == shed + Works(w.book.expired[..pops])
  {
    hide Inv, R.Account, R.Stamped;
    assert |w.lost| == w.shed + |w.book.expired|;
    assert w'.lost[..w'.shed] == w.lost[..w.shed] + w.book.expired[..pops] by {
      assert w.lost[w.shed..][..pops] == w.book.expired[..pops];
    }
  }

  // ---- The stages ------------------------------------------------------------------------------------

  lemma {:induction false} FillLedger<K(!new), I(!new), W, S>(r: Reactor<K, I, W, S>, l: Limits, cls: nat, now: nat,
                                                             ws: seq<R.World<K, Stamped<I, W>, S>>)
    returns (ws': seq<R.World<K, Stamped<I, W>, S>>)
    requires Good(r, l) && cls < |r.book.ready| && Ledger(r, l, ws) && Ordered(Fill(r, l, cls, now).log)
    ensures Ledger(Fill(r, l, cls, now), l, ws')
    decreases Budget(r.book, l.cfg, cls)
  {
    hide Inv, LiveOk, JobsOk, CountsMatch, Ledger, Ordered, Next, Budget;
    NextShard(r, l, cls, now);
    NextSpends(r, l, cls, now);
    var next := Served(r, l, cls, now);
    OrderedPrefix(next.log, Fill(r, l, cls, now).log);
    WorksNil<K, I, W>();
    ws' := LedgerMore(r, l, ws, R.OpNext(cls, now), next);
    if Next(r.book, l.cfg, cls, now).1.Some? { ws' := FillLedger(next, l, cls, now, ws'); }
  }

  lemma {:induction false} FillFromLedger<K(!new), I(!new), W, S>(r: Reactor<K, I, W, S>, l: Limits, cls: nat, now: nat,
                                                                 ws: seq<R.World<K, Stamped<I, W>, S>>)
    returns (ws': seq<R.World<K, Stamped<I, W>, S>>)
    requires Good(r, l) && cls <= |l.cfg.maxInflight| && Ledger(r, l, ws) && Ordered(FillFrom(r, l, cls, now).log)
    ensures Ledger(FillFrom(r, l, cls, now), l, ws')
    decreases |l.cfg.maxInflight| - cls
  {
    hide Good, Ledger, Ordered, Fill;
    RingCount(r, l);
    ws' := ws;
    if cls < |l.cfg.maxInflight| {
      OrderedPrefix(Fill(r, l, cls, now).log, FillFrom(r, l, cls, now).log);
      ws' := FillLedger(r, l, cls, now, ws);
      ws' := FillFromLedger(Fill(r, l, cls, now), l, cls + 1, now, ws');
    }
  }

  lemma {:induction false} ShedLedger<K(!new), I(!new), W, S>(r: Reactor<K, I, W, S>, l: Limits,
                                                             ws: seq<R.World<K, Stamped<I, W>, S>>)
    returns (ws': seq<R.World<K, Stamped<I, W>, S>>)
    requires Good(r, l) && Ledger(r, l, ws) && Ordered(Shed(r, l).log)
    ensures Ledger(Shed(r, l), l, ws')
    decreases |r.book.expired|
  {
    hide Inv, LiveOk, JobsOk, CountsMatch, Ledger, Ordered;
    ws' := ws;
    if r.book.expired != [] {
      ShedShard(r, l);
      OrderedPrefix(ShedOne(r).log, Shed(r, l).log);
      assert Works(r.book.expired[..1]) == [(r.book.expired[0].0, r.book.expired[0].2.work)];
      ws' := LedgerMore(r, l, ws, R.OpPopExpired, ShedOne(r));
      ws' := ShedLedger(ShedOne(r), l, ws');
    }
  }

  lemma ArriveLedger<K(!new), I(!new), W, S>(r: Reactor<K, I, W, S>, l: Limits, e: Envelope<K, I, W>,
                                             ws: seq<R.World<K, Stamped<I, W>, S>>)
    returns (ws': seq<R.World<K, Stamped<I, W>, S>>)
    requires Good(r, l) && e.cls < |l.cfg.maxInflight| && Ledger(r, l, ws) && Ordered(Arrive(r, l, e).log)
    ensures Ledger(Arrive(r, l, e), l, ws')
  {
    hide Inv, LiveOk, JobsOk, CountsMatch, Ordered, Admit;
    RingCount(r, l);
    ws' := ws;
    if !(l.coalesce && e.id.Some? && (e.key, e.id.value) in r.live) {
      AdmitShard(r, l, e.key, ItemOf(e, l));
      WorksNil<K, I, W>();
      ws' := LedgerMore(r, l, ws, R.OpAdmit(e.key, ItemOf(e, l)), Arrive(r, l, e));
    }
  }

  lemma {:induction false} DrainedLedger<K(!new), I(!new), W, S>(r: Reactor<K, I, W, S>, l: Limits,
                                                                arrivals: seq<Envelope<K, I, W>>, taken: nat,
                                                                ws: seq<R.World<K, Stamped<I, W>, S>>)
    returns (ws': seq<R.World<K, Stamped<I, W>, S>>)
    requires Good(r, l) && ArrivalsOk(arrivals, l) && taken <= |arrivals| && Ledger(r, l, ws)
    requires Ordered(Drained(r, l, arrivals, taken).0.log)
    ensures Ledger(Drained(r, l, arrivals, taken).0, l, ws')
    decreases |arrivals| - taken
  {
    hide Good, Ledger, Ordered, Arrive;
    ws' := ws;
    if taken < |arrivals| && Taking(r, l, taken) {
      OrderedPrefix(Arrive(r, l, arrivals[taken]).log, Drained(r, l, arrivals, taken).0.log);
      ws' := ArriveLedger(r, l, arrivals[taken], ws);
      ws' := DrainedLedger(Arrive(r, l, arrivals[taken]), l, arrivals, taken + 1, ws');
    }
  }

  lemma FinishLedger<K(!new), I(!new), W, S>(r: Reactor<K, I, W, S>, l: Limits, key: K, kept: Option<S>, at: nat,
                                             ws: seq<R.World<K, Stamped<I, W>, S>>)
    returns (ws': seq<R.World<K, Stamped<I, W>, S>>)
    requires Good(r, l) && key in r.jobs && Ledger(r, l, ws) && Ordered(Finish(r, l, key, kept, at).log)
    ensures Ledger(Finish(r, l, key, kept, at), l, ws')
  {
    hide PlacesOk, AccountsOk, LiveOk, CountsMatch, Ledger, Ordered, Complete, FinishEvict;
    WorksNil<K, I, W>();
    var r' := Finish(r, l, key, kept, at);
    if r.jobs[key].Run? {
      CompleteShard(r, l, key, kept, at);
      ws' := LedgerMore(r, l, ws, R.OpComplete(key, kept, at), r');
    } else {
      FlushedShard(r, l, key, at);
      ws' := LedgerMore(r, l, ws, R.OpFinishEvict(key, at), r');
    }
  }

  lemma {:induction false} HarvestLedger<K(!new), I(!new), W, S>(r: Reactor<K, I, W, S>, l: Limits,
                                                                finished: seq<(K, Option<S>)>, i: nat, done: nat,
                                                                  at: nat,
                                                                ws: seq<R.World<K, Stamped<I, W>, S>>)
    returns (ws': seq<R.World<K, Stamped<I, W>, S>>)
    requires Good(r, l) && i <= |finished| && Ledger(r, l, ws) && Ordered(Harvested(r, l, finished, i, done, at).0.log)
    ensures Ledger(Harvested(r, l, finished, i, done, at).0, l, ws')
    decreases |finished| - i
  {
    hide Good, Ledger, Ordered, Finish;
    ws' := ws;
    if i < |finished| && done < Clamp(l.completeBatch) {
      if finished[i].0 in r.jobs {
        var next := Finish(r, l, finished[i].0, finished[i].1, at);
        OrderedPrefix(next.log, Harvested(r, l, finished, i, done, at).0.log);
        ws' := FinishLedger(r, l, finished[i].0, finished[i].1, at, ws);
        ws' := HarvestLedger(next, l, finished, i + 1, done + 1, at, ws');
      } else {
        ws' := HarvestLedger(r, l, finished, i + 1, done, at, ws);
      }
    }
  }

  lemma SweptLedger<K(!new), I(!new), W, S>(r: Reactor<K, I, W, S>, l: Limits, now: nat,
                                            ws: seq<R.World<K, Stamped<I, W>, S>>)
    returns (ws': seq<R.World<K, Stamped<I, W>, S>>)
    requires Good(r, l) && Ledger(r, l, ws) && Ordered(Swept(r, l, now).log)
    ensures Ledger(Swept(r, l, now), l, ws')
  {
    hide Inv, LiveOk, JobsOk, CountsMatch, Ledger, Ordered, Evict;
    ws' := ws;
    if r.staged == [] {
      SweepShard(r, l, now);
      WorksNil<K, I, W>();
      ws' := LedgerMore(r, l, ws, R.OpEvict(now), Swept(r, l, now));
    }
  }

  lemma FlushAllLedger<K(!new), I(!new), W, S>(r: Reactor<K, I, W, S>, l: Limits, ws: seq<R.World<K, Stamped<I, W>, S>>)
    returns (ws': seq<R.World<K, Stamped<I, W>, S>>)
    requires Good(r, l) && r.staged == [] && Ledger(r, l, ws) && Ordered(FlushAll(r, l).log)
    ensures Ledger(FlushAll(r, l), l, ws')
  {
    hide Inv, LiveOk, JobsOk, CountsMatch, Ledger, Ordered, EvictAll;
    FinalShard(r, l);
    WorksNil<K, I, W>();
    ws' := LedgerMore(r, l, ws, R.OpEvictAll, FlushAll(r, l));
  }

  // ---- Turns and runs ----------------------------------------------------------------------------------

  lemma {:induction false} FlushesKeepLog<K(!new), I(!new), W, S>(r: Reactor<K, I, W, S>, l: Limits)
    requires Good(r, l)
    ensures var r' := StartFlushes(r, l); r'.log == r.log && r'.book == r.book && r'.shed == r.shed
  {
  }

  /** The ledger depends on the log, the book and what was handed back. */
  lemma LedgerSame<K(!new), I(!new), W, S>(r: Reactor<K, I, W, S>, r': Reactor<K, I, W, S>, l: Limits,
                                           ws: seq<R.World<K, Stamped<I, W>, S>>)
    requires Ledger(r, l, ws) && r'.log == r.log && r'.book == r.book && r'.shed == r.shed
    ensures Ledger(r', l, ws)
  {
  }

  lemma BeginLedger<K(!new), I(!new), W, S>(r: Reactor<K, I, W, S>, l: Limits, now: nat,
                                            ws: seq<R.World<K, Stamped<I, W>, S>>)
    returns (ws': seq<R.World<K, Stamped<I, W>, S>>)
    requires Good(r, l) && Ledger(r, l, ws) && Ordered(Begin(r, l, now).log)
    ensures Ledger(Begin(r, l, now), l, ws')
  {
    hide Good, Ledger, Ordered, FillFrom, Shed, StartFlushes;
    var filled := FillFrom(r, l, 0, now);
    var shed := Shed(filled, l);
    FlushesKeepLog(shed, l);
    OrderedPrefix(filled.log, shed.log);
    ws' := FillFromLedger(r, l, 0, now, ws);
    ws' := ShedLedger(filled, l, ws');
    LedgerSame(shed, Begin(r, l, now), l, ws');
  }

  lemma ServeLedger<K(!new), I(!new), W, S>(r: Reactor<K, I, W, S>, l: Limits, input: Input<K, I, W, S>,
                                            ws: seq<R.World<K, Stamped<I, W>, S>>)
    returns (ws': seq<R.World<K, Stamped<I, W>, S>>)
    requires Good(r, l) && ArrivalsOk(input.arrivals, l) && Ledger(r, l, ws) && Ordered(Serve(r, l, input).log)
    ensures Ledger(Serve(r, l, input), l, ws')
  {
    hide Good, ArrivalsOk, Ledger, Ordered, Drained, Harvested, Swept;
    var heard := if r.open then Listen(r, l, input.arrivals, input.closes) else r;
    var harvested := Harvested(heard, l, input.finished, 0, 0, input.at).0;
    OrderedPrefix(harvested.log, Serve(r, l, input).log);
    OrderedPrefix(heard.log, Serve(r, l, input).log);
    ws' := ws;
    if r.open {
      ws' := DrainedLedger(r, l, input.arrivals, 0, ws);
      LedgerSame(Drained(r, l, input.arrivals, 0).0, heard, l, ws');
    }
    ws' := HarvestLedger(heard, l, input.finished, 0, 0, input.at, ws');
    if input.tick.Some? { ws' := SweptLedger(harvested, l, input.tick.value, ws'); }
  }

  lemma TurnLedger<K(!new), I(!new), W, S>(r: Reactor<K, I, W, S>, l: Limits, input: Input<K, I, W, S>,
                                           ws: seq<R.World<K, Stamped<I, W>, S>>)
    returns (ws': seq<R.World<K, Stamped<I, W>, S>>)
    requires Good(r, l) && ArrivalsOk(input.arrivals, l) && Ledger(r, l, ws) && Ordered(Turn(r, l, input).0.log)
    ensures Ledger(Turn(r, l, input).0, l, ws')
  {
    hide Good, ArrivalsOk, Ledger, Ordered, Begin, FlushAll, Serve;
    var begun := Begin(r, l, input.now);
    OrderedPrefix(begun.log, Turn(r, l, input).0.log);
    ws' := BeginLedger(r, l, input.now, ws);
    if !Quiet(begun) {
      ws' := ServeLedger(begun, l, input, ws');
    } else if begun.finalFlush {
      ws' := FlushAllLedger(begun, l, ws');
    }
  }

  lemma NewLedger<K(!new), I(!new), W, S>(l: Limits) returns (ws: seq<R.World<K, Stamped<I, W>, S>>)
    ensures Ledger(New<K, I, W, S>(l), l, ws)
  {
    ws := [R.Begin(l.cfg)];
  }

  /** Every run of the shard whose clock never runs backwards is a run of the book,
      operation by operation: it reaches the shard's own book, and what the shard
      handed back unrun is what expired there, in order. So everything proved of the
      book's runs holds of the shard's. */
  lemma {:induction false} RunIsABookRun<K(!new), I(!new), W, S>(l: Limits, inputs: seq<Input<K, I, W, S>>)
    returns (ws: seq<R.World<K, Stamped<I, W>, S>>)
    requires InputsOk(inputs, l) && Ordered(Reached(l, inputs).0.log)
    ensures Ledger(Reached(l, inputs).0, l, ws)
    decreases |inputs|
  {
    hide Good, ArrivalsOk, Ledger, Ordered, Turn, New;
    if inputs == [] {
      ws := NewLedger<K, I, W, S>(l);
    } else {
      var n := |inputs| - 1;
      var (r, ended) := Reached(l, inputs[..n]);
      OrderedPrefix(r.log, Reached(l, inputs).0.log);
      ws := RunIsABookRun(l, inputs[..n]);
      if !ended { ws := TurnLedger(r, l, inputs[n], ws); }
    }
  }

  lemma {:induction false} NoneExpired<P>(items: seq<Item<P>>, fates: seq<R.Fate>)
    requires |fates| <= |items| && R.ExpiredItems(items, fates) == []
    ensures forall i :: 0 <= i < |fates| ==> fates[i] != R.Expired
  {
    if fates != [] { NoneExpired(items, fates[..|fates| - 1]); }
  }

  /** One key's items are all completed, and its states all handed out again. */
  ghost predicate Finished<K, P, S>(w: R.World<K, P, S>, k: K) {
    && |R.Get(w.fates, k)| == |R.Get(w.admitted, k)|
    && (forall i :: 0 <= i < |R.Get(w.fates, k)| ==> R.Get(w.fates, k)[i] == R.Completed)
    && R.States(R.Get(w.handed, k)) == R.Get(w.kept, k)
  }

  lemma EmptyIsFinished<K(!new), P, S>(w: R.World<K, P, S>, k: K)
    requires R.Account(w, k) && w.book.slots == map[] && k !in w.book.running && w.lost == []
    ensures Finished(w, k)
  {
    var items, fates := R.Get(w.admitted, k), R.Get(w.fates, k);
    NoneExpired(items, fates);
    forall i | 0 <= i < |fates| ensures fates[i] == R.Completed {
      assert fates[i] != R.Running;
    }
  }

  /** Work without deadlines, with some budget for each class, on a clock that never
      runs backwards: when the shard ends, every item it admitted has been dispatched
      and has completed, and every state it kept was handed out again, once and in
      turn, to a later dispatch of its key or to a flush. */
  lemma EndFinishesEverything<K(!new), I(!new), W(!new), S>(l: Limits, inputs: seq<Input<K, I, W, S>>)
    returns (ws: seq<R.World<K, Stamped<I, W>, S>>)
    requires InputsOk(inputs, l) && Plain(inputs) && Ordered(Reached(l, inputs).0.log) && Reached(l, inputs).1
    requires forall c :: 0 <= c < |l.cfg.maxInflight| ==> l.cfg.maxInflight[c] >= 1
    ensures Ledger(Reached(l, inputs).0, l, ws)
    ensures forall k :: Finished(ws[|Reached(l, inputs).0.log|], k)
  {
    hide Good, ArrivalsOk, Ordered, Turn, Settled, R.Account, Inv, Finished, Reached, Plain;
    var r := Reached(l, inputs).0;
    ws := RunIsABookRun(l, inputs);
    EndLeavesNothing(l, inputs);
    T.BeginOk<K, Stamped<I, W>, S>(l.cfg);
    T.RunKeeps(l.cfg, ws, r.log, |r.log|);
    var w := ws[|r.log|];
    assert |w.lost[..w.shed]| == |Works(w.lost[..w.shed])| == 0;
    assert w.lost == w.lost[..w.shed] + w.lost[w.shed..];
    NobodyRunning(r.book, l.cfg);
    forall k ensures Finished(w, k) {
      EmptyIsFinished(w, k);
    }
  }

  lemma NobodyRunning<K(!new), P, S>(b: Book<K, P, S>, cfg: Config)
    requires Inv(b, cfg) && b.slots == map[]
    ensures forall k :: k !in b.running
  {
    hide PlacesOk, StateOk, CountsOk, ClassesOk;
    assert Flying(b.slots, {}) == {};
  }
}
