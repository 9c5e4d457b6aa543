/** What the book promises over whole runs: conservation and order of items,
    linear resident state, a strict starvation bound, and exact eviction. */
module BookTheorems {
  import opened Options
  import opened Sequences
  import opened Book
  import opened BookInvariant
  import opened BookRuns

  /** A run of operations, each one allowed where it happens. */
  ghost predicate Run<K(!new), P, S>(cfg: Config, ws: seq<World<K, P, S>>, ops: seq<Op<K, P, S>>) {
    && |ws| == |ops| + 1
    && (forall i :: 0 <= i < |ops| && Inv(ws[i].book, cfg) ==>
          Allowed(ws[i], ops[i]) && ws[i + 1] == Step(ws[i], cfg, ops[i]))
  }

  lemma BeginOk<K(!new), P, S>(cfg: Config)
    ensures WorldOk(Begin<K, P, S>(cfg), cfg)
  {
    EmptyKeeps<K, P, S>(cfg);
    var w := Begin<K, P, S>(cfg);
    forall k ensures Account(w, k) {
    }
  }

  /** Every world a run reaches satisfies the invariant and the ledger. */
  lemma {:induction false} RunKeeps<K(!new), P, S>(cfg: Config, ws: seq<World<K, P, S>>, ops: seq<Op<K, P, S>>, n: nat)
    requires Run(cfg, ws, ops) && WorldOk(ws[0], cfg) && n < |ws|
    ensures WorldOk(ws[n], cfg)
    ensures n < |ops| ==> Allowed(ws[n], ops[n]) && ws[n + 1] == Step(ws[n], cfg, ops[n])
  {
    hide Account, InvHeld, Stamped, Allowed, Step;
    if n > 0 {
      RunKeeps(cfg, ws, ops, n - 1);
      StepWorld(ws[n - 1], cfg, ops[n - 1]);
    }
  }

  // ---- Items ---------------------------------------------------------------------------

  /** Where item `i` of key `k` is: still queued at its own place in line, in
      flight as its key's one item out, or settled. */
  ghost predicate OnePlace<K, P, S>(w: World<K, P, S>, k: K, i: nat) {
    var items, fates, queue := Get(w.admitted, k), Get(w.fates, k), QueueOf(w.book.slots, k);
    && |items| == |fates| + |queue|
    && (|fates| <= i < |items| ==> queue[i - |fates|] == items[i])
    && (i < |fates| && fates[i] == Running ==>
          i == |fates| - 1 && k in w.book.running && w.book.running[k] == items[i].cls)
    && (k in w.book.running ==> |fates| > 0 && fates[|fates| - 1] == Running)
  }

  /** Each admitted item is in exactly one place, and its key's queue is the rest
      of its admissions in order. The items discarded as expired are those the
      caller has collected followed by those it has yet to collect. */
  lemma ItemsHaveOnePlace<K(!new), P, S>(cfg: Config, ws: seq<World<K, P, S>>, ops: seq<Op<K, P, S>>, n: nat, k: K,
                                         i: nat)
    requires Run(cfg, ws, ops) && ws[0] == Begin(cfg) && n < |ws|
    ensures OnePlace(ws[n], k, i)
    ensures |Get(ws[n].fates, k)| <= |Get(ws[n].admitted, k)|
    ensures Only(ws[n].lost, k) == ExpiredItems(Get(ws[n].admitted, k), Get(ws[n].fates, k))
    ensures ws[n].shed <= |ws[n].lost| && ws[n].lost == ws[n].lost[..ws[n].shed] + ws[n].book.expired
  {
    hide InvHeld, Stamped, Run, Only, ExpiredItems;
    RunShape(cfg, ws, ops);
    BeginOk<K, P, S>(cfg);
    RunKeeps(cfg, ws, ops, n);
    assert Account(ws[n], k);
  }

  lemma RunShape<K(!new), P, S>(cfg: Config, ws: seq<World<K, P, S>>, ops: seq<Op<K, P, S>>)
    requires Run(cfg, ws, ops)
    ensures |ws| == |ops| + 1
  {
  }

  /** At every instant the counters are exact: in flight per class and within its
      budget, pending over queued and in flight, evicting over quiesced keys. */
  lemma CountersAreExact<K(!new), P, S>(cfg: Config, ws: seq<World<K, P, S>>, ops: seq<Op<K, P, S>>, n: nat, c: nat)
    requires Run(cfg, ws, ops) && ws[0] == Begin(cfg) && n < |ws| && c < |cfg.maxInflight|
    ensures var b := ws[n].book;
            && c < |b.inflight| && b.inflight[c] == |RunningIn(b.running, c)| <= cfg.maxInflight[c]
            && b.pending == |Queued(b.slots)| + |b.running|
            && b.evicting == |Quiesced(b.slots, {})|
            && b.running.Keys == Flying(b.slots, {})
  {
    hide PlacesOk, Stamped, Run, Account;
    RunShape(cfg, ws, ops);
    BeginOk<K, P, S>(cfg);
    RunKeeps(cfg, ws, ops, n);
  }

  /** What is settled stays settled: items are only ever added to a key's history,
      a final fate never changes, and no state is ever un-kept or un-handed. */
  ghost predicate HistoryGrows<K(!new), P, S>(w: World<K, P, S>, w': World<K, P, S>) {
    forall k ::
      && Get(w.admitted, k) <= Get(w'.admitted, k)
      && FatesGrow(Get(w.fates, k), Get(w'.fates, k))
      && Get(w.kept, k) <= Get(w'.kept, k)
      && Get(w.handed, k) <= Get(w'.handed, k)
  }

  ghost predicate FatesGrow(fates: seq<Fate>, fates': seq<Fate>) {
    && |fates| <= |fates'|
    && (forall i :: 0 <= i < |fates| && fates[i] != Running ==> fates'[i] == fates[i])
  }

  lemma GrowsOn<K(!new), P, S>(a: World<K, P, S>, b: World<K, P, S>, c: World<K, P, S>)
    requires HistoryGrows(a, b) && HistoryGrows(b, c)
    ensures HistoryGrows(a, c)
  {
  }

  lemma TakeFrontGrows<K(!new), P, S>(w: World<K, P, S>, cls: nat, now: nat)
    requires Drainable(w.book) && cls < |w.book.ready| && w.book.ready[cls] != []
    ensures HistoryGrows(w, TakeFrontW(w, cls, now))
  {
    hide TakeFront, Append, FatesGrow, Given, Repeat;
    var key, w' := w.book.ready[cls][0], TakeFrontW(w, cls, now);
    forall k
      ensures Get(w.handed, k) <= Get(w'.handed, k) && FatesGrow(Get(w.fates, k), Get(w'.fates, k))
    {
      var (b', d) := TakeFront(w.book, cls, now);
      var n := ExpiredHeads(w.book.slots[key].queue, cls, now);
      AppendGrows(w.handed, key, if d.Some? then Given(d.value.state, false) else [], k);
      AppendGrows(w.fates, key, Repeat(Expired, n) + (if d.Some? then [Running] else []), k);
      FatesExtend(Get(w.fates, k), Get(w'.fates, k));
    }
  }

  lemma AppendGrows<K, V>(m: map<K, seq<V>>, key: K, vs: seq<V>, k: K)
    ensures Get(m, k) <= Get(Append(m, key, vs), k)
  {
  }

  lemma FatesExtend(fates: seq<Fate>, fates': seq<Fate>)
    requires fates <= fates'
    ensures FatesGrow(fates, fates')
  {
  }

  lemma ReleaseGrows<K(!new), P, S>(w: World<K, P, S>)
    requires IdleListed(w.book) && w.book.idle != []
    ensures HistoryGrows(w, ReleaseOldestW(w))
  {
  }

  lemma {:induction false} DrainGrows<K(!new), P, S>(w: World<K, P, S>, cls: nat, now: nat)
    requires Drainable(w.book) && cls < |w.book.ready|
    ensures HistoryGrows(w, DrainW(w, cls, now))
    decreases |w.book.ready[cls]|
  {
    if w.book.ready[cls] == [] {
    } else {
      hide TakeFront;
      TakeFrontShrinks(w.book, cls, now);
      TakeFrontGrows(w, cls, now);
      if TakeFront(w.book, cls, now).1.None? {
        DrainGrows(TakeFrontW(w, cls, now), cls, now);
        GrowsOn(w, TakeFrontW(w, cls, now), DrainW(w, cls, now));
      }
    }
  }

  lemma {:induction false} SweepGrows<K(!new), P, S>(w: World<K, P, S>, cfg: Config, now: nat, iters: nat)
    requires Inv(w.book, cfg) && IdleListed(w.book)
    ensures HistoryGrows(w, SweepW(w, cfg, now, iters))
    decreases iters
  {
    hide ReleaseOldest, InvHeld;
    if iters > 0 && w.book.idle != [] && (OldEnough(w.book, cfg, w.book.idle[0], now) || OverCapacity(w.book, cfg)) {
      ReleaseOldestKeeps(w.book, cfg);
      InvDrainable(ReleaseOldestW(w).book, cfg, {});
      ReleaseGrows(w);
      SweepGrows(ReleaseOldestW(w), cfg, now, iters - 1);
      GrowsOn(w, ReleaseOldestW(w), SweepW(w, cfg, now, iters));
    }
  }

  lemma {:induction false} EvictAllGrows<K(!new), P, S>(w: World<K, P, S>, cfg: Config)
    requires Inv(w.book, cfg) && IdleListed(w.book)
    ensures HistoryGrows(w, EvictAllW(w))
    decreases |w.book.idle|
  {
    hide ReleaseOldest, InvHeld;
    if w.book.idle != [] {
      ReleaseOldestKeeps(w.book, cfg);
      ReleaseShape(w.book);
      InvDrainable(ReleaseOldestW(w).book, cfg, {});
      ReleaseGrows(w);
      EvictAllGrows(ReleaseOldestW(w), cfg);
      GrowsOn(w, ReleaseOldestW(w), EvictAllW(w));
    }
  }

  lemma StepGrows<K(!new), P, S>(w: World<K, P, S>, cfg: Config, op: Op<K, P, S>)
    requires WorldOk(w, cfg) && Allowed(w, op)
    ensures HistoryGrows(w, Step(w, cfg, op))
  {
    hide InvHeld, Stamped, KeyOk, Admit, Complete, FinishEvict, PopExpired;
    InvDrainable(w.book, cfg, {});
    match op
    case OpAdmit(key, item) => AdmitKeeps(w.book, cfg, key, item);
    case OpNext(cls, now) =>
      NextKeeps(w.book, cfg, cls, now);
      DrainGrows(w.(clock := now), cls, now);
    case OpPopExpired =>
    case OpComplete(key, kept, now) =>
      CompleteKeeps(w.book, cfg, key, w.book.running[key], kept, now);
      assert Account(w, key);
      SettleGrows(Get(w.fates, key)) by { OutIsRunning(w, key); }
    case OpEvict(now) => SweepGrows(w.(clock := now), cfg, now, cfg.evictIters);
    case OpEvictAll => EvictAllGrows(w, cfg);
    case OpFinishEvict(key, now) => FinishEvictKeeps(w.book, cfg, key, now);
  }

  lemma OutIsRunning<K, P, S>(w: World<K, P, S>, key: K)
    requires Account(w, key) && key in w.book.running
    ensures Get(w.fates, key) != [] && Get(w.fates, key)[|Get(w.fates, key)| - 1] == Running
  {
  }

  lemma SettleGrows(fates: seq<Fate>)
    requires fates != [] && fates[|fates| - 1] == Running
    ensures FatesGrow(fates, Settle(fates))
  {
  }

  // ---- Dispatch ----------------------------------------------------------------------------

  /** A dispatch carries its key's oldest undispatched, unexpired item of the class
      and the state kept for the key, which leaves the book. */
  ghost predicate Dispatched<K, P, S>(w: World<K, P, S>, w': World<K, P, S>, d: Dispatch<K, P, S>) {
    var n := |Get(w'.fates, d.key)|;
    && 0 < n <= |Get(w'.admitted, d.key)| && |Get(w.fates, d.key)| < n
    && Get(w'.fates, d.key)[n - 1] == Running
    && Get(w'.admitted, d.key)[n - 1].payload == d.payload
    && (forall i :: |Get(w.fates, d.key)| <= i < n - 1 ==> Get(w'.fates, d.key)[i] == Expired)
    && d.state == ResidentOf(w.book.slots, d.key)
    && Get(w'.handed, d.key) == Get(w.handed, d.key) + Given(d.state, false)
    && d.key in w'.book.running && w'.book.running[d.key] == d.cls
  }

  lemma DrainBook<K, P, S>(w: World<K, P, S>, cls: nat, now: nat)
    requires Drainable(w.book) && cls < |w.book.ready|
    ensures DrainW(w, cls, now).book == Drain(w.book, cls, now).0
    decreases |w.book.ready[cls]|
  {
    hide TakeFront;
    if w.book.ready[cls] != [] {
      TakeFrontShrinks(w.book, cls, now);
      if TakeFront(w.book, cls, now).1.None? { DrainBook(TakeFrontW(w, cls, now), cls, now); }
    }
  }

  /** Dropping a key's expired heads beforehand changes nothing about a dispatch
      but how many expired items come before it. */
  lemma DispatchedBack<K(!new), P, S>(w: World<K, P, S>, cls: nat, w': World<K, P, S>, d: Dispatch<K, P, S>)
    requires Drainable(w.book) && cls < |w.book.ready| && w.book.ready[cls] != []
    requires TakeFront(w.book, cls, w.clock).1.None?
    requires var w1 := TakeFrontW(w, cls, w.clock);
             Dispatched(w1, w', d) && FatesGrow(Get(w1.fates, d.key), Get(w'.fates, d.key))
    ensures Dispatched(w, w', d)
  {
    hide TakeFront, ExpiredHeads, Tagged;
    TakeFrontShape(w.book, cls, w.clock);
    var w1, key := TakeFrontW(w, cls, w.clock), w.book.ready[cls][0];
    assert Get(w1.handed, d.key) == Get(w.handed, d.key);
    if d.key == key {
      ExpiredBetween(Get(w.fates, key), Get(w1.fates, key), Get(w'.fates, key),
                     ExpiredHeads(w.book.slots[key].queue, cls, w.clock));
    }
  }

  lemma ExpiredBetween(fates: seq<Fate>, fates1: seq<Fate>, fates': seq<Fate>, n: nat)
    requires fates1 == fates + Repeat(Expired, n) && FatesGrow(fates1, fates')
    ensures |fates| <= |fates1| && forall i :: |fates| <= i < |fates1| ==> fates'[i] == Expired
  {
  }

  lemma TakeFrontDispatches<K(!new), P, S>(w: World<K, P, S>, cfg: Config, cls: nat)
    requires WorldOk(w, cfg) && Drainable(w.book) && cls < |w.book.ready| && w.book.ready[cls] != []
    requires TakeFront(w.book, cls, w.clock).1.Some?
    ensures Dispatched(w, TakeFrontW(w, cls, w.clock), TakeFront(w.book, cls, w.clock).1.value)
  {
    hide TakeFront, InvHeld, Only, Stamped, ExpiredItems, ExpiredHeads, States, Held;
    TakeFrontShape(w.book, cls, w.clock);
    var key := w.book.ready[cls][0];
    FrontNotRunning(w.book, cfg, cls);
    assert Account(w, key);
    var n := ExpiredHeads(w.book.slots[key].queue, cls, w.clock);
    var items, fates := Get(w.admitted, key), Get(w.fates, key);
    assert items[|fates|..][n] == items[|fates| + n];
  }

  lemma {:induction false} DrainDispatches<K(!new), P, S>(w: World<K, P, S>, cfg: Config, cls: nat)
    requires WorldOk(w, cfg) && Drainable(w.book) && cls < |w.book.ready| == |cfg.maxInflight|
    requires w.book.inflight[cls] < cfg.maxInflight[cls]
    requires Drain(w.book, cls, w.clock).1.Some?
    ensures Dispatched(w, DrainW(w, cls, w.clock), Drain(w.book, cls, w.clock).1.value)
    decreases |w.book.ready[cls]|
  {
    hide WorldOk, TakeFront, Dispatched, HistoryGrows;
    TakeFrontShrinks(w.book, cls, w.clock);
    if TakeFront(w.book, cls, w.clock).1.Some? {
      TakeFrontDispatches(w, cfg, cls);
    } else {
      var w1 := TakeFrontW(w, cls, w.clock);
      TakeFrontWorld(w, cfg, cls);
      TakeFrontBudget(w.book, cls, w.clock);
      DrainDispatches(w1, cfg, cls);
      var d := Drain(w.book, cls, w.clock).1.value;
      DrainGrows(w1, cls, w.clock);
      KeyGrows(w1, DrainW(w1, cls, w.clock), d.key);
      DispatchedBack(w, cls, DrainW(w1, cls, w.clock), d);
    }
  }

  lemma KeyGrows<K(!new), P, S>(w: World<K, P, S>, w': World<K, P, S>, k: K)
    requires HistoryGrows(w, w')
    ensures FatesGrow(Get(w.fates, k), Get(w'.fates, k))
  {
  }

  /** Whatever `next` dispatches is its key's next item in admission order, after
      only expired ones, together with the state last kept for the key. */
  lemma NextDispatchesInOrder<K(!new), P, S>(w: World<K, P, S>, cfg: Config, cls: nat, now: nat)
    requires WorldOk(w, cfg) && Allowed(w, OpNext(cls, now))
    ensures Drainable(w.book) && |w.book.ready| == |cfg.maxInflight|
    ensures Next(w.book, cfg, cls, now).1.Some? ==>
              Dispatched(w, Step(w, cfg, OpNext(cls, now)), Next(w.book, cfg, cls, now).1.value)
  {
    hide Account, InvHeld, Stamped, Drain, DrainW, KeyOk;
    NextKeeps(w.book, cfg, cls, now);
    SameLengths(w.book, cfg);
    if Next(w.book, cfg, cls, now).1.Some? {
      TickWorld(w, cfg, now);
      DrainDispatches(w.(clock := now), cfg, cls);
    }
  }

  /** Resident state is linear. The `j`th state kept for a key was handed out once,
      in its turn, to a dispatch or to a flush, or it is the last one kept and is
      still resident; and nothing else was ever handed out. */
  lemma StateIsLinear<K(!new), P, S>(cfg: Config, ws: seq<World<K, P, S>>, ops: seq<Op<K, P, S>>, n: nat, k: K, j: nat)
    requires Run(cfg, ws, ops) && ws[0] == Begin(cfg) && n < |ws| && j < |Get(ws[n].kept, k)|
    ensures var kept, handed, resident := Get(ws[n].kept, k), Get(ws[n].handed, k), ResidentOf(ws[n].book.slots, k);
            && |kept| == |handed| + (if resident.Some? then 1 else 0)
            && (j < |handed| ==> handed[j].state == kept[j])
            && (j >= |handed| ==> j == |kept| - 1 && resident == Some(kept[j]))
  {
    hide InvHeld, Stamped, Run, Only, ExpiredItems;
    RunShape(cfg, ws, ops);
    BeginOk<K, P, S>(cfg);
    RunKeeps(cfg, ws, ops, n);
    assert Account(ws[n], k);
  }

  // ---- Starvation ----------------------------------------------------------------------------

  function Position<K(==)>(xs: seq<K>, x: K): nat
    requires x in xs
  {
    if xs[0] == x then 0 else 1 + Position(xs[1..], x)
  }

  /** The first `n` items are of the class and past their deadline. */
  ghost predicate Overdue<P>(queue: seq<Item<P>>, cls: nat, now: nat, n: nat) {
    && n <= |queue|
    && forall i :: 0 <= i < n ==>
         queue[i].cls == cls && queue[i].expiresAt.Some? && queue[i].expiresAt.value <= now
  }

  /** All of a key's leading items of the class were past their deadline. */
  ghost predicate HeadsExpired<P>(queue: seq<Item<P>>, cls: nat, now: nat) {
    exists n: nat :: Overdue(queue, cls, now, n) && n > 0 && (n < |queue| ==> queue[n].cls != cls)
  }

  /** The first `m` keys of a ring were popped: each was dispatched, and then it
      was the last, or had all its heads of the class expired. */
  ghost predicate Popped<K, P, S>(b: Book<K, P, S>, b': Book<K, P, S>, d: Option<Dispatch<K, P, S>>,
                                  cls: nat, now: nat, m: nat) {
    && cls < |b.ready| == |b'.ready| && m <= |b.ready[cls]| && b'.ready[cls] == b.ready[cls][m..]
    && (d.Some? ==> m > 0 && d.value.key == b.ready[cls][m - 1])
    && (forall i :: 0 <= i < m && (d.None? || i < m - 1) ==>
          HeadsExpired(QueueOf(b.slots, b.ready[cls][i]), cls, now))
  }

  /** Draining pops a prefix of the ring. */
  lemma {:induction false} DrainPops<K, P, S>(b: Book<K, P, S>, cfg: Config, cls: nat, now: nat) returns (m: nat)
    requires Inv(b, cfg) && Drainable(b) && cls < |b.ready| == |cfg.maxInflight|
    requires b.inflight[cls] < cfg.maxInflight[cls]
    ensures Popped(b, Drain(b, cls, now).0, Drain(b, cls, now).1, cls, now, m)
    decreases |b.ready[cls]|
  {
    hide InvHeld, TakeFront, HeadsExpired;
    m := 0;
    if b.ready[cls] != [] {
      TakeFrontShrinks(b, cls, now);
      TakeFrontKeeps(b, cfg, cls, now);
      TakeFrontBudget(b, cls, now);
      FrontExpires(b, cfg, cls, now);
      m := 1;
      if TakeFront(b, cls, now).1.None? {
        var b1 := TakeFront(b, cls, now).0;
        var m1 := DrainPops(b1, cfg, cls, now);
        m := 1 + m1;
        PoppedMore(b, b1, Drain(b, cls, now).0, Drain(b, cls, now).1, cfg, cls, now, m1);
      }
    }
  }

  lemma PoppedMore<K, P, S>(b: Book<K, P, S>, b1: Book<K, P, S>, b': Book<K, P, S>, d: Option<Dispatch<K, P, S>>,
                            cfg: Config, cls: nat, now: nat, m: nat)
    requires Inv(b, cfg) && Drainable(b) && cls < |b.ready| && b.ready[cls] != []
    requires b1 == TakeFront(b, cls, now).0 && |b1.ready| == |b.ready| && b1.ready[cls] == b.ready[cls][1..]
    requires HeadsExpired(QueueOf(b.slots, b.ready[cls][0]), cls, now)
    requires Popped(b1, b', d, cls, now, m)
    ensures Popped(b, b', d, cls, now, m + 1)
  {
    hide InvHeld, TakeFront, HeadsExpired;
    forall i | 0 <= i < m + 1 && (d.None? || i < m)
      ensures HeadsExpired(QueueOf(b.slots, b.ready[cls][i]), cls, now)
    {
      if i > 0 {
        assert b1.ready[cls][i - 1] == b.ready[cls][i];
        LaterUntouched(b, cfg, cls, now, i);
      }
    }
  }

  lemma FrontExpires<K, P, S>(b: Book<K, P, S>, cfg: Config, cls: nat, now: nat)
    requires Inv(b, cfg) && Drainable(b) && cls < |b.ready| && b.ready[cls] != []
    ensures var d := TakeFront(b, cls, now).1;
            if d.Some? then d.value.key == b.ready[cls][0]
            else HeadsExpired(QueueOf(b.slots, b.ready[cls][0]), cls, now)
  {
    hide AccountsOk;
    FrontIsReady(b, cls);
    TakeFrontShape(b, cls, now);
    var queue := QueueOf(b.slots, b.ready[cls][0]);
    var n := ExpiredHeads(queue, cls, now);
    assert Overdue(queue, cls, now, n);
  }

  lemma LaterUntouched<K, P, S>(b: Book<K, P, S>, cfg: Config, cls: nat, now: nat, i: nat)
    requires Inv(b, cfg) && Drainable(b) && cls < |b.ready| && 0 < i < |b.ready[cls]|
    ensures QueueOf(TakeFront(b, cls, now).0.slots, b.ready[cls][i]) == QueueOf(b.slots, b.ready[cls][i])
  {
  }

  lemma {:induction false} PositionOfSuffix<K>(xs: seq<K>, m: nat, x: K)
    requires Distinct(xs) && m <= |xs| && x in xs
    ensures x in xs[m..] ==> Position(xs[m..], x) + m == Position(xs, x)
    ensures x !in xs[m..] ==> Position(xs, x) < m && xs[Position(xs, x)] == x
  {
    if m == 0 {
      assert xs[0..] == xs;
    } else if xs[0] == x {
      DropFirst(xs);
      assert xs[m..] == xs[1..][m - 1..];
    } else {
      DropFirst(xs);
      PositionOfSuffix(xs[1..], m - 1, x);
      assert xs[1..][m - 1..] == xs[m..];
    }
  }

  lemma {:induction false} PositionOfPrefix<K>(xs: seq<K>, ys: seq<K>, x: K)
    requires x in xs
    ensures x in xs + ys && Position(xs + ys, x) == Position(xs, x)
  {
    assert (xs + ys)[0] == xs[0] && (xs + ys)[1..] == xs[1..] + ys;
    if xs[0] != x {
      assert x in xs[1..];
      PositionOfPrefix(xs[1..], ys, x);
    }
    assert (xs + ys)[Position(xs, x)] == x by { PositionIsIndex(xs, x); }
  }

  lemma {:induction false} PositionIsIndex<K>(xs: seq<K>, x: K)
    requires x in xs
    ensures Position(xs, x) < |xs| && xs[Position(xs, x)] == x
  {
    if xs[0] != x {
      assert x in xs[1..];
      PositionIsIndex(xs[1..], x);
    }
  }

  /** Whether an operation is a dispatch of class `c`. */
  ghost predicate Dispatches<K, P, S>(w: World<K, P, S>, cfg: Config, op: Op<K, P, S>, c: nat)
    requires Inv(w.book, cfg) && Allowed(w, op)
  {
    if op.OpNext? && op.cls == c then
      InvDrainable(w.book, cfg, {});
      SameLengths(w.book, cfg);
      Next(w.book, cfg, c, op.now).1.Some?
    else false
  }

  /** How a key leaves a ring: dispatched by this very call, or with all its heads
      of the class past their deadline at this call's time. */
  ghost predicate Leaves<K, P, S>(w: World<K, P, S>, cfg: Config, op: Op<K, P, S>, c: nat, x: K)
    requires Inv(w.book, cfg) && Allowed(w, op)
  {
    && op.OpNext? && op.cls == c
    && ((Dispatches(w, cfg, op, c) && NextOf(w, cfg, op).key == x)
        || HeadsExpired(QueueOf(w.book.slots, x), c, op.now))
  }

  ghost function NextOf<K, P, S>(w: World<K, P, S>, cfg: Config, op: Op<K, P, S>): Dispatch<K, P, S>
    requires Inv(w.book, cfg) && Allowed(w, op) && op.OpNext? && Dispatches(w, cfg, op, op.cls)
  {
    InvDrainable(w.book, cfg, {});
    SameLengths(w.book, cfg);
    Next(w.book, cfg, op.cls, op.now).1.value
  }

  /** A ring's front part only ever shrinks from the front. */
  lemma NextPosition<K(!new), P, S>(w: World<K, P, S>, cfg: Config, cls: nat, now: nat, x: K)
    requires WorldOk(w, cfg) && Allowed(w, OpNext(cls, now)) && x in w.book.ready[cls]
    ensures var op: Op<K, P, S> := OpNext(cls, now);
            var ring' := Step(w, cfg, op).book.ready;
            && cls < |ring'|
            && (x in ring'[cls] ==>
                  Position(ring'[cls], x) + (if Dispatches(w, cfg, op, cls) then 1 else 0)
                  <= Position(w.book.ready[cls], x))
            && (x !in ring'[cls] ==> Leaves(w, cfg, op, cls, x))
  {
    hide InvHeld, Account, Stamped, Drain, DrainW, HeadsExpired;
    NextKeeps(w.book, cfg, cls, now);
    SameLengths(w.book, cfg);
    if w.book.inflight[cls] < cfg.maxInflight[cls] {
      DrainBook(w.(clock := now), cls, now);
      var m := DrainPops(w.book, cfg, cls, now);
      RingDistinct(w.book, cfg, cls);
      PositionOfSuffix(w.book.ready[cls], m, x);
    }
  }

  lemma RingDistinct<K, P, S>(b: Book<K, P, S>, cfg: Config, cls: nat)
    requires Inv(b, cfg) && cls < |b.ready|
    ensures Distinct(b.ready[cls])
  {
  }

  lemma {:induction false} DrainAppends<K, P, S>(b: Book<K, P, S>, cls: nat, now: nat, c: nat)
    requires Drainable(b) && cls < |b.ready| && c < |b.ready| && c != cls
    ensures |Drain(b, cls, now).0.ready| == |b.ready| && b.ready[c] <= Drain(b, cls, now).0.ready[c]
    decreases |b.ready[cls]|
  {
    hide TakeFront;
    if b.ready[cls] != [] {
      TakeFrontShrinks(b, cls, now);
      TakeFrontAppends(b, cls, now, c);
      if TakeFront(b, cls, now).1.None? { DrainAppends(TakeFront(b, cls, now).0, cls, now, c); }
    }
  }

  lemma TakeFrontAppends<K, P, S>(b: Book<K, P, S>, cls: nat, now: nat, c: nat)
    requires Drainable(b) && cls < |b.ready| && b.ready[cls] != [] && c < |b.ready| && c != cls
    ensures |TakeFront(b, cls, now).0.ready| == |b.ready| && b.ready[c] <= TakeFront(b, cls, now).0.ready[c]
  {
  }

  lemma {:induction false} SweepLeavesRings<K, P, S>(b: Book<K, P, S>, cfg: Config, now: nat, iters: nat)
    requires Inv(b, cfg) && IdleListed(b)
    ensures Sweep(b, cfg, now, iters).0.ready == b.ready
    decreases iters
  {
    hide InvHeld;
    if iters > 0 && b.idle != [] && (OldEnough(b, cfg, b.idle[0], now) || OverCapacity(b, cfg)) {
      ReleaseOldestKeeps(b, cfg);
      InvDrainable(ReleaseOldest(b).0, cfg, {});
      SweepLeavesRings(ReleaseOldest(b).0, cfg, now, iters - 1);
    }
  }

  lemma {:induction false} EvictAllLeavesRings<K, P, S>(w: World<K, P, S>, cfg: Config)
    requires Inv(w.book, cfg) && IdleListed(w.book)
    ensures EvictAllW(w).book.ready == w.book.ready
    decreases |w.book.idle|
  {
    hide InvHeld;
    if w.book.idle != [] {
      ReleaseOldestKeeps(w.book, cfg);
      ReleaseShape(w.book);
      InvDrainable(ReleaseOldest(w.book).0, cfg, {});
      EvictAllLeavesRings(ReleaseOldestW(w), cfg);
    }
  }

  /** Every other operation only ever adds to the back of a ring. */
  lemma RingExtends<K(!new), P, S>(w: World<K, P, S>, cfg: Config, op: Op<K, P, S>, c: nat)
    requires WorldOk(w, cfg) && Allowed(w, op) && c < |w.book.ready|
    requires !(op.OpNext? && op.cls == c)
    ensures |Step(w, cfg, op).book.ready| == |w.book.ready| && w.book.ready[c] <= Step(w, cfg, op).book.ready[c]
  {
    hide InvHeld, Account, Stamped;
    InvDrainable(w.book, cfg, {});
    SameLengths(w.book, cfg);
    match op
    case OpAdmit(key, item) => AdmitKeeps(w.book, cfg, key, item);
    case OpNext(cls, now) =>
      DrainBook(w.(clock := now), cls, now);
      DrainAppends(w.book, cls, now, c);
    case OpPopExpired =>
    case OpComplete(key, kept, now) => CompleteKeeps(w.book, cfg, key, w.book.running[key], kept, now);
    case OpEvict(now) =>
      TickWorld(w, cfg, now);
      SweepWorld(w.(clock := now), cfg, now, cfg.evictIters);
      SweepLeavesRings(w.book, cfg, now, cfg.evictIters);
    case OpEvictAll => EvictAllLeavesRings(w, cfg);
    case OpFinishEvict(key, now) => FinishEvictKeeps(w.book, cfg, key, now);
  }

  /** One operation: a waiting key moves up by one for each dispatch of its class
      or leaves the ring, and it leaves only by being served or by expiring. */
  lemma StepPosition<K(!new), P, S>(w: World<K, P, S>, cfg: Config, op: Op<K, P, S>, c: nat, x: K)
    requires WorldOk(w, cfg) && Allowed(w, op) && c < |w.book.ready| && x in w.book.ready[c]
    ensures var ring' := Step(w, cfg, op).book.ready;
            && c < |ring'|
            && (x in ring'[c] ==>
                  Position(ring'[c], x) + (if Dispatches(w, cfg, op, c) then 1 else 0) <= Position(w.book.ready[c], x))
            && (x !in ring'[c] ==> Leaves(w, cfg, op, c, x))
  {
    hide Account, Stamped, InvHeld, Step, Leaves, Dispatches;
    if op.OpNext? && op.cls == c {
      NextPosition(w, cfg, c, op.now, x);
    } else {
      RingExtends(w, cfg, op, c);
      NotADispatch(w, cfg, op, c);
      var ring, ring' := w.book.ready[c], Step(w, cfg, op).book.ready[c];
      assert ring' == ring + ring'[|ring|..];
      PositionOfPrefix(ring, ring'[|ring|..], x);
    }
  }

  lemma NotADispatch<K, P, S>(w: World<K, P, S>, cfg: Config, op: Op<K, P, S>, c: nat)
    requires Inv(w.book, cfg) && Allowed(w, op) && !(op.OpNext? && op.cls == c)
    ensures !Dispatches(w, cfg, op, c)
  {
  }

  /** Dispatches of class `c` among the first `n` operations. */
  ghost function Count<K(!new), P, S>(cfg: Config, ws: seq<World<K, P, S>>, ops: seq<Op<K, P, S>>, c: nat, n: nat): nat
    requires n <= |ops| < |ws| && forall i :: 0 <= i < n ==> Inv(ws[i].book, cfg) && Allowed(ws[i], ops[i])
  {
    if n == 0 then 0
    else Count(cfg, ws, ops, c, n - 1) + (if Dispatches(ws[n - 1], cfg, ops[n - 1], c) then 1 else 0)
  }

  /** Strict starvation bound. However work is admitted, completed and evicted
      meanwhile, a key with `k` keys ahead of it in its ring sees at most `k`
      dispatches of its class while it waits. */
  lemma {:induction false} StarvationBound<K(!new), P, S>(cfg: Config, ws: seq<World<K, P, S>>, ops: seq<Op<K, P, S>>,
                                                          c: nat, x: K, n: nat)
    requires Run(cfg, ws, ops) && WorldOk(ws[0], cfg) && n <= |ops|
    requires forall i :: 0 <= i <= n ==> c < |ws[i].book.ready| && x in ws[i].book.ready[c]
    ensures forall i :: 0 <= i < n ==> Inv(ws[i].book, cfg) && Allowed(ws[i], ops[i])
    ensures Count(cfg, ws, ops, c, n) + Position(ws[n].book.ready[c], x) <= Position(ws[0].book.ready[c], x)
  {
    hide InvHeld, Account, Stamped, Step, Allowed, Dispatches;
    forall i | 0 <= i < n ensures Inv(ws[i].book, cfg) && Allowed(ws[i], ops[i]) {
      RunKeeps(cfg, ws, ops, i);
    }
    if n > 0 {
      StarvationBound(cfg, ws, ops, c, x, n - 1);
      RunKeeps(cfg, ws, ops, n - 1);
      StepPosition(ws[n - 1], cfg, ops[n - 1], c, x);
    }
  }

  /** So the dispatch after those serves it, unless its turn had come already or
      its items of the class expired: the moment it stops waiting is one of
      those two. */
  lemma WaitingEndsByServiceOrExpiry<K(!new), P, S>(cfg: Config, ws: seq<World<K, P, S>>, ops: seq<Op<K, P, S>>,
                                                    c: nat, x: K, n: nat)
    requires Run(cfg, ws, ops) && WorldOk(ws[0], cfg) && n < |ops|
    requires c < |ws[n].book.ready| && x in ws[n].book.ready[c]
    requires c < |ws[n + 1].book.ready| ==> x !in ws[n + 1].book.ready[c]
    ensures Inv(ws[n].book, cfg) && Allowed(ws[n], ops[n]) && Leaves(ws[n], cfg, ops[n], c, x)
  {
    hide InvHeld, Account, Stamped, Step, Allowed, Dispatches, Leaves;
    RunKeeps(cfg, ws, ops, n);
    StepPosition(ws[n], cfg, ops[n], c, x);
  }

  // ---- Eviction -------------------------------------------------------------------------------

  /** What releasing these keys hands over, in order. */
  ghost function Collect<K, P, S>(slots: map<K, Slot<P, S>>, keys: seq<K>): seq<(K, S)> {
    if keys == [] then []
    else Flushed(keys[0], ResidentOf(slots, keys[0])) + Collect(slots, keys[1..])
  }

  ghost function Flushed<K, S>(key: K, state: Option<S>): seq<(K, S)> {
    if state.Some? then [(key, state.value)] else []
  }

  /** How long ago a stamp is, or zero for one ahead of the clock. */
  function Age(since: nat, now: nat): int {
    if since > now then 0 else now - since
  }

  /** The key has been idle for at least the window. */
  ghost predicate OldAt<K, P, S>(b: Book<K, P, S>, cfg: Config, now: nat, i: nat)
    requires i < |b.idle|
  {
    b.idle[i] in b.slots && Age(b.slots[b.idle[i]].idleSince, now) >= cfg.evictAfter
  }

  /** Resident keys not already being flushed, after `i` releases, still exceed
      the cap. */
  ghost predicate OverAfter<K, P, S>(b: Book<K, P, S>, cfg: Config, i: nat) {
    cfg.maxResident.Some? && |b.slots| - b.evicting - i > cfg.maxResident.value
  }

  /** A released key is quiesced, its state handed over, or forgotten when it has none. */
  ghost predicate LetGo<K, P, S>(slot: Slot<P, S>, slots': map<K, Slot<P, S>>, k: K) {
    if slot.resident.None? then k !in slots'
    else k in slots' && slots'[k] == slot.(presence := Evicting, resident := None)
  }

  /** Those keys were released and no other was touched. */
  ghost predicate Released<K, P, S>(b: Book<K, P, S>, b': Book<K, P, S>, keys: seq<K>) {
    && (forall k :: k in b'.slots ==> k in b.slots)
    && (forall k :: k in b.slots && k !in keys ==> k in b'.slots && b'.slots[k] == b.slots[k])
    && (forall k :: k in b.slots && k in keys ==> LetGo(b.slots[k], b'.slots, k))
  }

  /** A sweep released exactly the `m` longest idle keys, each of them old enough or
      needed to get under the cap, and it stopped for a reason. */
  ghost predicate Swept<K, P, S>(b: Book<K, P, S>, cfg: Config, now: nat, iters: nat,
                                 b': Book<K, P, S>, out: seq<(K, S)>, m: nat) {
    && m <= iters && m <= |b.idle|
    && b'.idle == b.idle[m..]
    && out == Collect(b.slots, b.idle[..m])
    && Released(b, b', b.idle[..m])
    && (forall i :: 0 <= i < m ==> OldAt(b, cfg, now, i) || OverAfter(b, cfg, i))
    && (m < iters && m < |b.idle| ==> !OldAt(b, cfg, now, m) && !OverAfter(b, cfg, m))
  }

  lemma {:induction false} SweepReleases<K, P, S>(b: Book<K, P, S>, cfg: Config, now: nat, iters: nat) returns (m: nat)
    requires Inv(b, cfg) && IdleListed(b)
    ensures Swept(b, cfg, now, iters, Sweep(b, cfg, now, iters).0, Sweep(b, cfg, now, iters).1, m)
    decreases iters
  {
    hide InvHeld, Collect, ReleaseOldest, Released, LetGo;
    m := 0;
    if iters > 0 && b.idle != [] && (OldEnough(b, cfg, b.idle[0], now) || OverCapacity(b, cfg)) {
      ReleaseOldestKeeps(b, cfg);
      var (b1, out1) := ReleaseOldest(b);
      InvDrainable(b1, cfg, {});
      var m1 := SweepReleases(b1, cfg, now, iters - 1);
      ReleaseMeasure(b, cfg);
      SweptMore(b, cfg, now, iters, b1, out1, Sweep(b1, cfg, now, iters - 1).0, Sweep(b1, cfg, now, iters - 1).1, m1);
      m := m1 + 1;
    } else {
      assert b.idle[..0] == [] && b.idle[0..] == b.idle;
      CollectNone(b.slots);
      NoneReleased(b);
    }
  }

  lemma CollectNone<K, P, S>(slots: map<K, Slot<P, S>>)
    ensures Collect(slots, []) == []
  {
  }

  lemma CollectMore<K, P, S>(slots: map<K, Slot<P, S>>, key: K, keys: seq<K>)
    ensures Collect(slots, [key] + keys) == Flushed(key, ResidentOf(slots, key)) + Collect(slots, keys)
  {
    assert ([key] + keys)[1..] == keys;
  }

  lemma NoneReleased<K, P, S>(b: Book<K, P, S>)
    ensures Released(b, b, [])
  {
  }

  lemma ReleaseMeasure<K, P, S>(b: Book<K, P, S>, cfg: Config)
    requires Inv(b, cfg) && IdleListed(b) && b.idle != []
    ensures var b1 := ReleaseOldest(b).0;
            && |b1.slots| - b1.evicting == |b.slots| - b.evicting - 1
            && b1.idle == b.idle[1..] && Touches(b, b1, b.idle[0]) && b.idle[0] in b.slots && b.idle[0] !in b.idle[1..]
            && LetGo(b.slots[b.idle[0]], b1.slots, b.idle[0])
            && ReleaseOldest(b).1 == Flushed(b.idle[0], ResidentOf(b.slots, b.idle[0]))
  {
    hide InvHeld;
    OldestIsEmpty(b, cfg);
    ReleaseShape(b);
    var key := b.idle[0];
    if b.slots[key].resident.None? {
      assert (b.slots - {key}).Keys == b.slots.Keys - {key};
    } else {
      assert b.slots[key := b.slots[key].(presence := Evicting, resident := None)].Keys == b.slots.Keys;
    }
  }

  lemma SweptMore<K, P, S>(b: Book<K, P, S>, cfg: Config, now: nat, iters: nat, b1: Book<K, P, S>, out1: seq<(K, S)>,
                           b': Book<K, P, S>, out: seq<(K, S)>, m: nat)
    requires iters > 0 && b.idle != [] && b.idle[0] in b.slots && b.idle[0] !in b.idle[1..]
    requires OldAt(b, cfg, now, 0) || OverAfter(b, cfg, 0)
    requires |b1.slots| - b1.evicting == |b.slots| - b.evicting - 1
    requires b1.idle == b.idle[1..] && Touches(b, b1, b.idle[0]) && LetGo(b.slots[b.idle[0]], b1.slots, b.idle[0])
    requires out1 == Flushed(b.idle[0], ResidentOf(b.slots, b.idle[0]))
    requires Swept(b1, cfg, now, iters - 1, b', out, m)
    ensures Swept(b, cfg, now, iters, b', out1 + out, m + 1)
  {
    hide LetGo, Released, Collect;
    forall i | 0 <= i < |b1.idle|
      ensures b1.idle[i] == b.idle[i + 1]
      ensures OldAt(b1, cfg, now, i) <==> OldAt(b, cfg, now, i + 1)
    {
      assert b.idle[1..][i] in b.idle[1..];
    }
    forall i | 0 <= i < m + 1 ensures OldAt(b, cfg, now, i) || OverAfter(b, cfg, i) {
      if i > 0 { assert OldAt(b1, cfg, now, i - 1) || OverAfter(b1, cfg, i - 1); }
    }
    assert b.idle[..m + 1] == [b.idle[0]] + b1.idle[..m];
    assert b.idle[0] !in b1.idle[..m];
    CollectSame(b, b1, b1.idle[..m]);
    CollectMore(b.slots, b.idle[0], b1.idle[..m]);
    SlotsMore(b, b1, b', b1.idle[..m]);
  }

  lemma SlotsMore<K, P, S>(b: Book<K, P, S>, b1: Book<K, P, S>, b': Book<K, P, S>, keys: seq<K>)
    requires b.idle != [] && b.idle[0] in b.slots && b.idle[0] !in keys && Touches(b, b1, b.idle[0])
    requires LetGo(b.slots[b.idle[0]], b1.slots, b.idle[0])
    requires Released(b1, b', keys)
    ensures Released(b, b', [b.idle[0]] + keys)
  {
  }

  lemma {:induction false} CollectSame<K, P, S>(b: Book<K, P, S>, b1: Book<K, P, S>, keys: seq<K>)
    requires b.idle != [] && Touches(b, b1, b.idle[0]) && b.idle[0] !in keys
    ensures Collect(b1.slots, keys) == Collect(b.slots, keys)
  {
    if keys != [] {
      assert keys[0] in keys;
      CollectSame(b, b1, keys[1..]);
    }
  }

  /** Flushing every idle key releases them all, oldest first. */
  lemma {:induction false} EvictAllReleases<K, P, S>(b: Book<K, P, S>, cfg: Config)
    requires Inv(b, cfg) && IdleListed(b)
    ensures var (b', out) := EvictAll(b);
      b'.idle == [] && out == Collect(b.slots, b.idle) && Released(b, b', b.idle)
    decreases |b.idle|
  {
    hide InvHeld, Collect, ReleaseOldest, Released, LetGo, Touches;
    if b.idle == [] {
      CollectNone(b.slots);
      NoneReleased(b);
    } else {
      ReleaseOldestKeeps(b, cfg);
      ReleaseMeasure(b, cfg);
      var b1 := ReleaseOldest(b).0;
      InvDrainable(b1, cfg, {});
      EvictAllReleases(b1, cfg);
      CollectSame(b, b1, b.idle[1..]);
      CollectMore(b.slots, b.idle[0], b.idle[1..]);
      SlotsMore(b, b1, EvictAll(b1).0, b.idle[1..]);
      assert [b.idle[0]] + b.idle[1..] == b.idle;
    }
  }

  /** With no cap and enough iterations, a sweep releases exactly the keys that
      have been idle for at least the eviction window. */
  lemma UncappedSweepIsExact<K(!new), P, S>(w: World<K, P, S>, cfg: Config, now: nat, k: K)
    requires WorldOk(w, cfg) && w.clock <= now && k in w.book.idle
    requires cfg.maxResident.None? && cfg.evictIters >= |w.book.idle|
    ensures IdleListed(w.book) && k in w.book.slots
    ensures k in Evict(w.book, cfg, now).0.idle <==> now - w.book.slots[k].idleSince < cfg.evictAfter
  {
    hide Account, InvHeld, Released, Collect;
    var b := w.book;
    InvDrainable(b, cfg, {});
    IdleDistinct(b, cfg);
    var m := SweepReleases(b, cfg, now, cfg.evictIters);
    var i :| 0 <= i < |b.idle| && b.idle[i] == k;
    assert now >= b.slots[k].idleSince;
    forall j | m <= j < |b.idle| ensures now - b.slots[b.idle[j]].idleSince < cfg.evictAfter {
      assert !OldAt(b, cfg, now, m);
      assert b.slots[b.idle[m]].idleSince <= b.slots[b.idle[j]].idleSince;
    }
    if i < m {
      assert OldAt(b, cfg, now, i);
      assert forall j :: m <= j < |b.idle| ==> b.idle[j] != k;
    } else {
      assert b.idle[m..][i - m] == k;
    }
  }

  lemma IdleDistinct<K, P, S>(b: Book<K, P, S>, cfg: Config)
    requires Inv(b, cfg)
    ensures Distinct(b.idle)
  {
  }

  /** Capacity pressure alone never takes the book below its cap: a key released
      too young went while the keys resident and not being flushed exceeded it. */
  lemma CapacityEvictsOnlyTheExcess<K(!new), P, S>(w: World<K, P, S>, cfg: Config, now: nat, max: nat) returns (m: nat)
    requires WorldOk(w, cfg) && cfg.maxResident == Some(max)
    ensures IdleListed(w.book) && m <= |w.book.idle| && Evict(w.book, cfg, now).0.idle == w.book.idle[m..]
    ensures forall i :: 0 <= i < m ==> w.book.idle[i] in w.book.slots
    ensures forall i :: 0 <= i < m && Age(w.book.slots[w.book.idle[i]].idleSince, now) < cfg.evictAfter ==>
      |w.book.slots| - w.book.evicting - i > max
    ensures |w.book.slots| - w.book.evicting <= max ==>
      forall i :: 0 <= i < m ==> Age(w.book.slots[w.book.idle[i]].idleSince, now) >= cfg.evictAfter
  {
    hide Account, InvHeld, Stamped;
    InvDrainable(w.book, cfg, {});
    m := SweepReleases(w.book, cfg, now, cfg.evictIters);
    forall i | 0 <= i < m && Age(w.book.slots[w.book.idle[i]].idleSince, now) < cfg.evictAfter
      ensures |w.book.slots| - w.book.evicting - i > max
    {
      assert !OldAt(w.book, cfg, now, i);
    }
  }
}
