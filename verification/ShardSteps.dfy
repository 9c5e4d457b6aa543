/** The shard reactor's accounting: futures outstanding against the scheduler's
    in-flight keys and the flushes, quiesced keys against what is staged or
    flushing, and the live index against the tracked items not yet answered. */
module ShardSteps {
  import opened Options
  import opened Sequences
  import opened Book
  import opened BookInvariant
  import R = BookRuns
  import opened ShardEffects

  datatype Stamped<+I, +W> = Stamped(id: Option<I>, work: W)

  /** A future in the outstanding set; a key has at most one. */
  datatype Job<+I> = Run(cls: nat, id: Option<I>) | Flush

  // ---- Request ids and where they are ------------------------------------------------------------

  function Ids<I>(id: Option<I>): multiset<I> {
    if id.Some? then multiset{id.value} else multiset{}
  }

  function QueuedIds<I, W>(items: seq<Item<Stamped<I, W>>>): multiset<I> {
    if items == [] then multiset{} else QueuedIds(items[..|items| - 1]) + Ids(items[|items| - 1].payload.id)
  }

  /** The ids of a key's discarded items that have not been handed back. */
  function UnshedIds<K(==), I, W>(expired: seq<(K, nat, Stamped<I, W>)>, k: K): multiset<I> {
    if expired == [] then multiset{}
    else
      var (key, _, stamped) := expired[|expired| - 1];
      UnshedIds(expired[..|expired| - 1], k) + if key == k then Ids(stamped.id) else multiset{}
  }

  function RunningIds<K, I>(jobs: map<K, Job<I>>, k: K): multiset<I> {
    if k in jobs && jobs[k].Run? then Ids(jobs[k].id) else multiset{}
  }

  /** Every id of a key's tracked items, once for each. */
  ghost function TrackedIds<K, I, W, S>(b: Book<K, Stamped<I, W>, S>, jobs: map<K, Job<I>>, k: K): multiset<I> {
    QueuedIds(QueueOf(b.slots, k)) + UnshedIds(b.expired, k) + RunningIds(jobs, k)
  }

  lemma {:induction false} QueuedIdsSplit<I, W>(xs: seq<Item<Stamped<I, W>>>, ys: seq<Item<Stamped<I, W>>>)
    ensures QueuedIds(xs + ys) == QueuedIds(xs) + QueuedIds(ys)
  {
    if ys == [] {
      assert xs + ys == xs;
    } else {
      var n := |ys| - 1;
      assert (xs + ys)[..|xs + ys| - 1] == xs + ys[..n];
      QueuedIdsSplit(xs, ys[..n]);
    }
  }

  lemma QueuedIdsOne<I, W>(item: Item<Stamped<I, W>>)
    ensures QueuedIds([item]) == Ids(item.payload.id)
  {
    assert [item][..0] == [];
  }

  lemma QueuedIdsAt<I, W>(q: seq<Item<Stamped<I, W>>>, n: nat)
    requires n <= |q|
    ensures QueuedIds(q) == QueuedIds(q[..n]) + QueuedIds(q[n..])
    ensures n < |q| ==> QueuedIds(q) == QueuedIds(q[..n]) + Ids(q[n].payload.id) + QueuedIds(q[n + 1..])
  {
    hide QueuedIds;
    QueuedIdsSplit(q[..n], q[n..]);
    assert q[..n] + q[n..] == q;
    if n < |q| {
      QueuedIdsSplit([q[n]], q[n + 1..]);
      assert [q[n]] + q[n + 1..] == q[n..];
      QueuedIdsOne(q[n]);
    }
  }

  lemma {:induction false} UnshedIdsTagged<K, I, W>(expired: seq<(K, nat, Stamped<I, W>)>, key: K,
                                                    items: seq<Item<Stamped<I, W>>>, k: K)
    ensures UnshedIds(expired + Tagged(key, items), k)
         == UnshedIds(expired, k) + (if k == key then QueuedIds(items) else multiset{})
  {
    hide Ids;
    var all := expired + Tagged(key, items);
    if items == [] {
      assert all == expired;
    } else {
      var n := |items| - 1;
      assert all[..|all| - 1] == expired + Tagged(key, items[..n]);
      assert all[|all| - 1] == (key, items[n].cls, items[n].payload);
      UnshedIdsTagged(expired, key, items[..n], k);
    }
  }

  lemma {:induction false} UnshedIdsHead<K, I, W>(expired: seq<(K, nat, Stamped<I, W>)>, k: K)
    requires expired != []
    ensures UnshedIds(expired, k) ==
      (if expired[0].0 == k then Ids(expired[0].2.id) else multiset{}) + UnshedIds(expired[1..], k)
  {
    hide Ids;
    var n := |expired| - 1;
    if n > 0 {
      UnshedIdsHead(expired[..n], k);
      assert expired[1..][..n - 1] == expired[..n][1..] && expired[1..][n - 1] == expired[n] &&
        expired[..n][0] == expired[0];
    } else {
      assert expired[..0] == [] && expired[1..] == [];
    }
  }

  // ---- The live index ----------------------------------------------------------------------------------

  /** The index holds exactly the pairs of the tracked items, and no pair twice. */
  ghost predicate LiveOk<K(!new), I(!new), W, S>(b: Book<K, Stamped<I, W>, S>, jobs: map<K, Job<I>>,
                                                 live: set<(K, I)>) {
    forall k, id :: TrackedIds(b, jobs, k)[id] == if (k, id) in live then 1 else 0
  }

  lemma LiveFrame<K(!new), I(!new), W, S>(b: Book<K, Stamped<I, W>, S>, jobs: map<K, Job<I>>, live: set<(K, I)>,
                                          b': Book<K, Stamped<I, W>, S>, jobs': map<K, Job<I>>)
    requires LiveOk(b, jobs, live)
    requires forall k :: TrackedIds(b', jobs', k) == TrackedIds(b, jobs, k)
    ensures LiveOk(b', jobs', live)
  {
    hide TrackedIds;
  }

  lemma LiveGains<K(!new), I(!new), W, S>(b: Book<K, Stamped<I, W>, S>, jobs: map<K, Job<I>>, live: set<(K, I)>,
                                          b': Book<K, Stamped<I, W>, S>, key: K, id: Option<I>)
    requires LiveOk(b, jobs, live) && (id.Some? ==> (key, id.value) !in live)
    requires forall k :: TrackedIds(b', jobs, k) == TrackedIds(b, jobs, k) + (if k == key then Ids(id) else multiset{})
    ensures LiveOk(b', jobs, live + Pairs(key, id))
  {
    hide TrackedIds;
  }

  lemma LiveLoses<K(!new), I(!new), W, S>(b: Book<K, Stamped<I, W>, S>, jobs: map<K, Job<I>>, live: set<(K, I)>,
                                          b': Book<K, Stamped<I, W>, S>, jobs': map<K, Job<I>>, key: K, id: Option<I>)
    requires LiveOk(b, jobs, live)
    requires forall k :: TrackedIds(b, jobs, k) == TrackedIds(b', jobs', k) + (if k == key then Ids(id) else multiset{})
    ensures LiveOk(b', jobs', live - Pairs(key, id))
  {
    hide TrackedIds;
    forall k, i ensures TrackedIds(b', jobs', k)[i] == if (k, i) in live - Pairs(key, id) then 1 else 0 {
      assert TrackedIds(b, jobs, k)[i] == if (k, i) in live then 1 else 0;
    }
  }

  function Pairs<K(==), I(==)>(key: K, id: Option<I>): set<(K, I)> {
    if id.Some? then {(key, id.value)} else {}
  }

  /** With coalescing, no two tracked items share a key and an id, wherever they are. */
  lemma NoPairTwice<K(!new), I(!new), W, S>(b: Book<K, Stamped<I, W>, S>, jobs: map<K, Job<I>>, live: set<(K, I)>,
                                            k: K, id: I)
    requires LiveOk(b, jobs, live)
    ensures QueuedIds(QueueOf(b.slots, k))[id] + UnshedIds(b.expired, k)[id] + RunningIds(jobs, k)[id] <= 1
    ensures (k, id) in live <==>
      id in QueuedIds(QueueOf(b.slots, k)) || id in UnshedIds(b.expired, k) || id in RunningIds(jobs, k)
  {
    assert TrackedIds(b, jobs, k)[id] == if (k, id) in live then 1 else 0;
  }

  // ---- Futures and quiesced keys ---------------------------------------------------------------------------

  ghost predicate JobsOk<K(!new), P, S, I>(b: Book<K, P, S>, jobs: map<K, Job<I>>, staged: seq<(K, S)>) {
    && (forall k :: k in b.running <==> k in jobs && jobs[k].Run?)
    && (forall k :: k in b.running && k in jobs && jobs[k].Run? ==> jobs[k].cls == b.running[k])
    && (forall k :: Evicted(b.slots, k) <==> (k in jobs && jobs[k].Flush?) || k in KeysOf(staged))
    && (forall k :: k in KeysOf(staged) ==> k !in jobs)
    && Distinct(KeysOf(staged))
  }

  ghost predicate CountsMatch<K, P, S, I>(b: Book<K, P, S>, jobs: map<K, Job<I>>, staged: seq<(K, S)>, flushes: nat,
                                          flushSlots: nat) {
    |jobs| == |b.running| + flushes && b.evicting == |staged| + flushes && flushes <= flushSlots
  }

  datatype Limits = Limits(cfg: Config, maxPending: nat, admitBatch: nat, completeBatch: nat, flushSlots: nat,
    coalesce: bool)

  datatype Reactor<K(==), I(==), W, S> = Reactor(
    book: Book<K, Stamped<I, W>, S>,
    live: set<(K, I)>,
    jobs: map<K, Job<I>>,
    staged: seq<(K, S)>,
    flushes: nat,
    /** Work handed back without running: retries of what is outstanding, and
        items past their deadline. */
    coalesced: seq<(K, W)>,
    shed: seq<(K, W)>,
    open: bool,
    finalFlush: bool,
    /** Every operation made on the book so far, in order. */
    log: seq<R.Op<K, Stamped<I, W>, S>>)

  function New<K, I, W, S>(l: Limits): Reactor<K, I, W, S> {
    Reactor(Empty(|l.cfg.maxInflight|), {}, map[], [], 0, [], [], true, true, [])
  }

  /** What the reactor keeps between any two of its steps. */
  ghost predicate Good<K(!new), I(!new), W, S>(r: Reactor<K, I, W, S>, l: Limits) {
    && Inv(r.book, l.cfg) && LiveOk(r.book, r.jobs, r.live) && JobsOk(r.book, r.jobs, r.staged)
    && CountsMatch(r.book, r.jobs, r.staged, r.flushes, l.flushSlots)
  }

  // ---- What the reactor does at each point ---------------------------------------------------------------

  /** One call of `next`, its dispatch started. */
  function Served<K, I, W, S>(r: Reactor<K, I, W, S>, l: Limits, cls: nat, now: nat): Reactor<K, I, W, S>
    requires Drainable(r.book) && cls < |r.book.ready| == |l.cfg.maxInflight|
  {
    var (b, d) := Next(r.book, l.cfg, cls, now);
    r.(book := b, jobs := Pushed(r.jobs, d), log := r.log + [R.OpNext(cls, now)])
  }

  /** The jobs after a dispatch, if there was one. */
  function Pushed<K, I, W, S>(jobs: map<K, Job<I>>, d: Option<Dispatch<K, Stamped<I, W>, S>>): map<K, Job<I>> {
    if d.Some? then jobs[d.value.key := Run(d.value.cls, d.value.payload.id)] else jobs
  }

  /** The oldest discarded item is handed back. */
  function ShedOne<K, I, W, S>(r: Reactor<K, I, W, S>): Reactor<K, I, W, S>
    requires r.book.expired != []
  {
    var (key, _, stamped) := r.book.expired[0];
    r.(book := PopExpired(r.book).0, live := r.live - Pairs(key, stamped.id), shed := r.shed + [(key, stamped.work)],
       log := r.log + [R.OpPopExpired])
  }

  /** The oldest staged candidate starts flushing. */
  function FlushOne<K, I, W, S>(r: Reactor<K, I, W, S>): Reactor<K, I, W, S>
    requires r.staged != []
  {
    r.(jobs := r.jobs[r.staged[0].0 := Flush], staged := r.staged[1..], flushes := r.flushes + 1)
  }

  /** An item joins its key's queue and its pair is remembered. */
  function Admitted<K, I, W, S>(r: Reactor<K, I, W, S>, key: K, item: Item<Stamped<I, W>>): Reactor<K, I, W, S>
    requires item.cls < |r.book.ready|
    requires key in r.book.slots && r.book.slots[key].presence.Idle? ==> r.book.slots[key].queue == []
  {
    r.(book := Admit(r.book, key, item), live := r.live + Pairs(key, item.payload.id),
       log := r.log + [R.OpAdmit(key, item)])
  }

  /** A key that is out is given back with a queue the book can place. */
  predicate Returnable<K, I, W, S>(r: Reactor<K, I, W, S>, key: K) {
    && key in r.jobs && key in r.book.slots
    && (r.jobs[key].Run? ==> r.jobs[key].cls < |r.book.inflight|) && (r.jobs[key].Flush? ==> r.flushes > 0)
    && (r.book.slots[key].queue != [] ==> r.book.slots[key].queue[0].cls < |r.book.ready|)
  }

  /** A dispatched item finished: its key's state comes back and its pair goes. */
  function Completed<K, I, W, S>(r: Reactor<K, I, W, S>, key: K, kept: Option<S>, at: nat): Reactor<K, I, W, S>
    requires Returnable(r, key) && r.jobs[key].Run?
  {
    r.(book := Complete(r.book, key, r.jobs[key].cls, kept, at), live := r.live - Pairs(key, r.jobs[key].id),
       jobs := r.jobs - {key}, log := r.log + [R.OpComplete(key, kept, at)])
  }

  /** A flush finished. */
  function FlushDone<K, I, W, S>(r: Reactor<K, I, W, S>, key: K, at: nat): Reactor<K, I, W, S>
    requires Returnable(r, key) && r.jobs[key].Flush?
  {
    r.(book := FinishEvict(r.book, key, at), jobs := r.jobs - {key}, flushes := r.flushes - 1,
       log := r.log + [R.OpFinishEvict(key, at)])
  }

  /** A sweep's candidates are staged. */
  function Staged<K, I, W, S>(r: Reactor<K, I, W, S>, l: Limits, now: nat): Reactor<K, I, W, S>
    requires IdleListed(r.book)
  {
    var (b, out) := Evict(r.book, l.cfg, now);
    r.(book := b, staged := out, log := r.log + [R.OpEvict(now)])
  }

  /** Every resident state is staged. */
  function StagedAll<K, I, W, S>(r: Reactor<K, I, W, S>): Reactor<K, I, W, S>
    requires IdleListed(r.book)
  {
    var (b, out) := EvictAll(r.book);
    r.(book := b, staged := out, finalFlush := false, log := r.log + [R.OpEvictAll])
  }

  /** The set sized for the budgets is never full when the reactor pushes. */
  lemma OutstandingFits<K(!new), I(!new), W, S>(r: Reactor<K, I, W, S>, l: Limits)
    requires Good(r, l)
    ensures |r.jobs| == Sum(r.book.inflight) + r.flushes <= Sum(l.cfg.maxInflight) + l.flushSlots
    ensures r.book.evicting == |r.staged| + r.flushes
  {
    hide Inv, LiveOk, JobsOk;
    InFlightTotal(r.book, l.cfg);
    SumBelow(r.book.inflight, l.cfg.maxInflight);
  }

  // ---- Steps ---------------------------------------------------------------------------------------------------

  lemma SameTracked<K(!new), I, W, S>(b: Book<K, Stamped<I, W>, S>, b': Book<K, Stamped<I, W>, S>, jobs: map<K, Job<I>>)
    requires b'.expired == b.expired && forall k :: QueueOf(b'.slots, k) == QueueOf(b.slots, k)
    ensures forall k :: TrackedIds(b', jobs, k) == TrackedIds(b, jobs, k)
  {
  }

  /** Nobody starts or stops being out. */
  lemma JobsFrame<K(!new), P, S, I>(b: Book<K, P, S>, b': Book<K, P, S>, jobs: map<K, Job<I>>, staged: seq<(K, S)>)
    requires JobsOk(b, jobs, staged) && b'.running == b.running
    requires forall k :: Evicted(b'.slots, k) <==> Evicted(b.slots, k)
    ensures JobsOk(b', jobs, staged)
  {
    hide KeysOf, Distinct;
  }

  /** The oldest staged key's flush starts. */
  lemma JobsStart<K(!new), P, S, I>(b: Book<K, P, S>, jobs: map<K, Job<I>>, staged: seq<(K, S)>)
    requires JobsOk(b, jobs, staged) && staged != []
    ensures JobsOk(b, jobs[staged[0].0 := Flush], staged[1..]) && staged[0].0 !in jobs && staged[0].0 !in b.running
  {
    var key := staged[0].0;
    assert KeysOf(staged)[0] == key && KeysOf(staged[1..]) == KeysOf(staged)[1..];
    DropFirst(KeysOf(staged));
  }

  /** A flush that was out is done. */
  lemma JobsFlushed<K(!new), P, S, I>(b: Book<K, P, S>, b': Book<K, P, S>, jobs: map<K, Job<I>>, staged: seq<(K, S)>,
                                      key: K)
    requires JobsOk(b, jobs, staged) && key in jobs && jobs[key].Flush? && b'.running == b.running
    requires forall k :: Evicted(b'.slots, k) <==> Evicted(b.slots, k) && k != key
    ensures JobsOk(b', jobs - {key}, staged)
  {
    hide KeysOf, Distinct;
  }

  lemma AdmitShard<K(!new), I(!new), W, S>(r: Reactor<K, I, W, S>, l: Limits, key: K, item: Item<Stamped<I, W>>)
    requires Good(r, l) && item.cls < |r.book.ready|
    requires item.payload.id.Some? ==> (key, item.payload.id.value) !in r.live
    ensures key in r.book.slots && r.book.slots[key].presence.Idle? ==> r.book.slots[key].queue == []
    ensures Good(Admitted(r, key, item), l)
  {
    hide Inv, LiveOk, JobsOk, Admit, Pairs;
    AdmitKeeps(r.book, l.cfg, key, item);
    AdmitEffect(r.book, key, item);
    JobsFrame(r.book, Admit(r.book, key, item), r.jobs, r.staged);
    AdmitTracked(r.book, r.jobs, key, item);
    LiveGains(r.book, r.jobs, r.live, Admit(r.book, key, item), key, item.payload.id);
  }

  lemma AdmitTracked<K(!new), I(!new), W, S>(b: Book<K, Stamped<I, W>, S>, jobs: map<K, Job<I>>, key: K,
                                             item: Item<Stamped<I, W>>)
    requires item.cls < |b.ready|
    requires key in b.slots && b.slots[key].presence.Idle? ==> b.slots[key].queue == []
    ensures forall k :: TrackedIds(Admit(b, key, item), jobs, k)
                     == TrackedIds(b, jobs, k) + (if k == key then Ids(item.payload.id) else multiset{})
  {
    hide Admit, QueuedIds, Ids, UnshedIds, RunningIds;
    AdmitEffect(b, key, item);
    QueuedIdsSplit(QueueOf(b.slots, key), [item]);
    QueuedIdsOne(item);
  }

  /** Discards and dispatches move ids about; they lose none. */
  ghost predicate Moved<K(!new), I(!new), W, S>(b: Book<K, Stamped<I, W>, S>, b': Book<K, Stamped<I, W>, S>,
                                                d: Option<Dispatch<K, Stamped<I, W>, S>>) {
    && (forall k :: QueuedIds(QueueOf(b'.slots, k)) + UnshedIds(b'.expired, k)
                    + (if d.Some? && d.value.key == k then Ids(d.value.payload.id) else multiset{})
                 == QueuedIds(QueueOf(b.slots, k)) + UnshedIds(b.expired, k))
    && (forall k :: Evicted(b'.slots, k) <==> Evicted(b.slots, k))
    && b'.evicting == b.evicting
    && (if d.Some? then d.value.key !in b.running && b'.running == b.running[d.value.key := d.value.cls]
        else b'.running == b.running)
  }

  lemma ServedMoves<K(!new), I(!new), W, S>(b: Book<K, Stamped<I, W>, S>, b': Book<K, Stamped<I, W>, S>,
                                            d: Option<Dispatch<K, Stamped<I, W>, S>>, key: K, n: nat, cls: nat)
    requires ServedFront(b, b', d, key, n, cls)
    ensures Moved(b, b', d)
  {
    hide QueuedIds, Ids, UnshedIds;
    var q := QueueOf(b.slots, key);
    QueuedIdsAt(q, n);
    forall k ensures QueuedIds(QueueOf(b'.slots, k)) + UnshedIds(b'.expired, k)
                     + (if d.Some? && d.value.key == k then Ids(d.value.payload.id) else multiset{})
                  == QueuedIds(QueueOf(b.slots, k)) + UnshedIds(b.expired, k)
    {
      UnshedIdsTagged(b.expired, key, q[..n], k);
    }
  }

  lemma {:induction false} DrainMoves<K(!new), I(!new), W, S>(b: Book<K, Stamped<I, W>, S>, cfg: Config, cls: nat,
                                                              now: nat)
    requires Inv(b, cfg) && Drainable(b) && cls < |b.ready| == |cfg.maxInflight|
    requires b.inflight[cls] < cfg.maxInflight[cls]
    ensures Moved(b, Drain(b, cls, now).0, Drain(b, cls, now).1)
    decreases |b.ready[cls]|
  {
    hide Inv, TakeFront, Moved, Drainable, ServedFront;
    if b.ready[cls] == [] {
      NothingMoves(b);
    } else {
      TakeFrontShrinks(b, cls, now);
      TakeFrontEffect(b, cfg, cls, now);
      var (b', d) := TakeFront(b, cls, now);
      ServedMoves(b, b', d, b.ready[cls][0], ExpiredHeads(b.slots[b.ready[cls][0]].queue, cls, now), cls);
      if d.None? {
        TakeFrontKeeps(b, cfg, cls, now);
        TakeFrontBudget(b, cls, now);
        DrainMoves(b', cfg, cls, now);
        MovedThen(b, b', Drain(b', cls, now).0, Drain(b', cls, now).1);
      }
    }
  }

  lemma NothingMoves<K(!new), I(!new), W, S>(b: Book<K, Stamped<I, W>, S>)
    ensures Moved(b, b, None)
  {
  }

  lemma MovedThen<K(!new), I(!new), W, S>(a: Book<K, Stamped<I, W>, S>, b: Book<K, Stamped<I, W>, S>,
                                          c: Book<K, Stamped<I, W>, S>,
                                          d: Option<Dispatch<K, Stamped<I, W>, S>>)
    requires Moved(a, b, None) && Moved(b, c, d)
    ensures Moved(a, c, d)
  {
    hide QueuedIds, Ids, UnshedIds;
    forall k ensures QueuedIds(QueueOf(c.slots, k)) + UnshedIds(c.expired, k)
                     + (if d.Some? && d.value.key == k then Ids(d.value.payload.id) else multiset{})
                  == QueuedIds(QueueOf(a.slots, k)) + UnshedIds(a.expired, k)
    {
      assert QueuedIds(QueueOf(b.slots, k)) + UnshedIds(b.expired, k) ==
        QueuedIds(QueueOf(a.slots, k)) + UnshedIds(a.expired, k);
    }
  }

  lemma NextMoves<K(!new), I(!new), W, S>(b: Book<K, Stamped<I, W>, S>, cfg: Config, cls: nat, now: nat)
    requires Inv(b, cfg) && cls < |b.ready|
    ensures Drainable(b) && |b.ready| == |cfg.maxInflight| == |b.inflight|
    ensures Inv(Next(b, cfg, cls, now).0, cfg) && Moved(b, Next(b, cfg, cls, now).0, Next(b, cfg, cls, now).1)
  {
    hide Inv, Moved, Drain;
    NextKeeps(b, cfg, cls, now);
    InFlightTotal(b, cfg);
    if b.inflight[cls] < cfg.maxInflight[cls] { DrainMoves(b, cfg, cls, now); } else { NothingMoves(b); }
  }

  lemma NextShard<K(!new), I(!new), W, S>(r: Reactor<K, I, W, S>, l: Limits, cls: nat, now: nat)
    requires Good(r, l) && cls < |r.book.ready|
    ensures Drainable(r.book) && |r.book.ready| == |l.cfg.maxInflight| == |r.book.inflight|
    ensures var d := Next(r.book, l.cfg, cls, now).1;
      d.Some? ==> d.value.key !in r.jobs && |r.jobs| < Sum(l.cfg.maxInflight) + l.flushSlots
    ensures Good(Served(r, l, cls, now), l)
  {
    hide Inv, LiveOk, Next, Moved, TrackedIds, JobsOk;
    NextMoves(r.book, l.cfg, cls, now);
    var (b', d) := Next(r.book, l.cfg, cls, now);
    if d.Some? { InFlightKey(b', l.cfg, d.value.key); }
    MovedJobs(r.book, b', r.jobs, r.staged, d);
    MovedTracked(r.book, b', r.jobs, d);
    LiveFrame(r.book, r.jobs, r.live, b', Pushed(r.jobs, d));
    if d.Some? {
      JobAdded(r.jobs, d.value.key, Run(d.value.cls, d.value.payload.id));
      RunningAdded(r.book.running, d.value.key, d.value.cls);
      OutstandingFits(Served(r, l, cls, now), l);
    }
  }

  lemma MovedJobs<K(!new), I(!new), W, S>(b: Book<K, Stamped<I, W>, S>, b': Book<K, Stamped<I, W>, S>,
                                          jobs: map<K, Job<I>>,
                                          staged: seq<(K, S)>, d: Option<Dispatch<K, Stamped<I, W>, S>>)
    requires Moved(b, b', d) && JobsOk(b, jobs, staged)
    requires d.Some? ==> (d.value.key in b'.running ==> !Evicted(b'.slots, d.value.key))
    ensures d.Some? ==> d.value.key !in jobs && d.value.key !in b.running
    ensures JobsOk(b', Pushed(jobs, d), staged)
    ensures b'.evicting == b.evicting
    ensures b'.running == if d.Some? then b.running[d.value.key := d.value.cls] else b.running
  {
    hide QueuedIds, UnshedIds, Ids;
  }

  lemma JobAdded<K, I>(jobs: map<K, Job<I>>, key: K, job: Job<I>)
    requires key !in jobs
    ensures |jobs[key := job]| == |jobs| + 1
  {
    assert jobs[key := job].Keys == jobs.Keys + {key};
  }

  lemma RunningAdded<K>(running: map<K, nat>, key: K, cls: nat)
    requires key !in running
    ensures |running[key := cls]| == |running| + 1
  {
    assert running[key := cls].Keys == running.Keys + {key};
  }

  lemma JobRemoved<K, I>(jobs: map<K, Job<I>>, key: K)
    requires key in jobs
    ensures |jobs - {key}| == |jobs| - 1
  {
    assert (jobs - {key}).Keys == jobs.Keys - {key};
  }

  lemma RunningRemoved<K>(running: map<K, nat>, key: K)
    requires key in running
    ensures |running - {key}| == |running| - 1
  {
    assert (running - {key}).Keys == running.Keys - {key};
  }

  lemma MovedTracked<K(!new), I(!new), W, S>(b: Book<K, Stamped<I, W>, S>, b': Book<K, Stamped<I, W>, S>,
                                             jobs: map<K, Job<I>>,
                                             d: Option<Dispatch<K, Stamped<I, W>, S>>)
    requires Moved(b, b', d) && (d.Some? ==> d.value.key !in jobs)
    ensures forall k :: TrackedIds(b', Pushed(jobs, d), k) == TrackedIds(b, jobs, k)
  {
    hide QueuedIds, UnshedIds;
    forall k ensures TrackedIds(b', Pushed(jobs, d), k) == TrackedIds(b, jobs, k) {
      assert QueuedIds(QueueOf(b'.slots, k)) + UnshedIds(b'.expired, k)
             + (if d.Some? && d.value.key == k then Ids(d.value.payload.id) else multiset{})
          == QueuedIds(QueueOf(b.slots, k)) + UnshedIds(b.expired, k);
    }
  }

  /** Handing a discarded item back forgets its pair. */
  lemma ShedShard<K(!new), I(!new), W, S>(r: Reactor<K, I, W, S>, l: Limits)
    requires Good(r, l) && r.book.expired != []
    ensures Good(ShedOne(r), l)
  {
    hide Inv, LiveOk, QueuedIds, Ids, UnshedIds;
    PopExpiredKeeps(r.book, l.cfg);
    var (key, _, stamped) := r.book.expired[0];
    var b' := PopExpired(r.book).0;
    forall k ensures TrackedIds(r.book, r.jobs, k) ==
      TrackedIds(b', r.jobs, k) + (if k == key then Ids(stamped.id) else multiset{}) {
      UnshedIdsHead(r.book.expired, k);
    }
    LiveLoses(r.book, r.jobs, r.live, b', r.jobs, key, stamped.id);
  }

  /** The oldest staged candidate starts flushing. */
  lemma FlushShard<K(!new), I(!new), W, S>(r: Reactor<K, I, W, S>, l: Limits)
    requires Good(r, l) && r.staged != [] && r.flushes < l.flushSlots
    ensures r.staged[0].0 !in r.jobs && |r.jobs| < Sum(l.cfg.maxInflight) + l.flushSlots
    ensures Good(FlushOne(r), l)
  {
    hide Inv, LiveOk, JobsOk, QueuedIds, Ids, UnshedIds;
    var key := r.staged[0].0;
    JobsStart(r.book, r.jobs, r.staged);
    JobAdded(r.jobs, key, Flush);
    assert forall k :: TrackedIds(r.book, r.jobs[key := Flush], k) == TrackedIds(r.book, r.jobs, k);
    LiveFrame(r.book, r.jobs, r.live, r.book, r.jobs[key := Flush]);
    OutstandingFits(FlushOne(r), l);
  }

  /** A dispatched item finished: its key's state comes back and its pair goes. */
  lemma CompleteShard<K(!new), I(!new), W, S>(r: Reactor<K, I, W, S>, l: Limits, key: K, kept: Option<S>, at: nat)
    requires Good(r, l) && key in r.jobs && r.jobs[key].Run?
    ensures Returnable(r, key) && Good(Completed(r, key, kept, at), l)
  {
    hide Inv, LiveOk, TrackedIds, Complete, Distinct, Ids;
    var job := r.jobs[key];
    CompleteKeeps(r.book, l.cfg, key, job.cls, kept, at);
    CompleteEffect(r.book, l.cfg, key, job.cls, kept, at);
    var b' := Complete(r.book, key, job.cls, kept, at);
    CompleteJobs(r.book, b', r.jobs, r.staged, key);
    JobRemoved(r.jobs, key);
    RunningRemoved(r.book.running, key);
    SameTracked(r.book, b', r.jobs);
    RunTracked(b', r.jobs, key);
    LiveLoses(r.book, r.jobs, r.live, b', r.jobs - {key}, key, job.id);
  }

  lemma RunTracked<K(!new), I(!new), W, S>(b: Book<K, Stamped<I, W>, S>, jobs: map<K, Job<I>>, key: K)
    requires key in jobs && jobs[key].Run?
    ensures forall k ::
      TrackedIds(b, jobs, k)
      == TrackedIds(b, jobs - {key}, k) + (if k == key then Ids(jobs[key].id) else multiset{})
  {
  }

  lemma CompleteJobs<K(!new), P, S, I>(b: Book<K, P, S>, b': Book<K, P, S>, jobs: map<K, Job<I>>, staged: seq<(K, S)>,
                                       key: K)
    requires JobsOk(b, jobs, staged) && key in jobs && jobs[key].Run? && key in b.running
    requires b'.running == b.running - {key} && SameWork(b, b')
    ensures JobsOk(b', jobs - {key}, staged)
  {
  }

  /** A flush finished. */
  lemma FlushedShard<K(!new), I(!new), W, S>(r: Reactor<K, I, W, S>, l: Limits, key: K, at: nat)
    requires Good(r, l) && key in r.jobs && r.jobs[key].Flush?
    ensures Returnable(r, key) && r.book.slots[key].presence.Evicting? && Good(FlushDone(r, key, at), l)
  {
    hide Inv, LiveOk, JobsOk, QueuedIds, Ids, UnshedIds, FinishEvict;
    FlushIsOut(r.book, r.jobs, r.staged, key);
    FinishEvictKeeps(r.book, l.cfg, key, at);
    FinishEvictEffect(r.book, key, at);
    var b' := FinishEvict(r.book, key, at);
    JobsFlushed(r.book, b', r.jobs, r.staged, key);
    JobRemoved(r.jobs, key);
    FewerRunning(r.book, r.jobs, r.staged, key);
    SameTracked(r.book, b', r.jobs);
    assert forall k :: TrackedIds(b', r.jobs - {key}, k) == TrackedIds(b', r.jobs, k);
    LiveFrame(r.book, r.jobs, r.live, b', r.jobs - {key});
  }

  lemma FlushIsOut<K(!new), P, S, I>(b: Book<K, P, S>, jobs: map<K, Job<I>>, staged: seq<(K, S)>, key: K)
    requires JobsOk(b, jobs, staged) && key in jobs && jobs[key].Flush?
    ensures Evicted(b.slots, key)
  {
  }

  /** With a flush outstanding, more futures than in-flight keys are. */
  lemma FewerRunning<K(!new), P, S, I>(b: Book<K, P, S>, jobs: map<K, Job<I>>, staged: seq<(K, S)>, key: K)
    requires JobsOk(b, jobs, staged) && key in jobs && jobs[key].Flush?
    ensures |b.running| < |jobs|
  {
    assert b.running.Keys <= jobs.Keys - {key};
    SubsetSmaller(b.running.Keys, jobs.Keys - {key});
  }

  lemma {:induction false} SubsetSmaller<T>(a: set<T>, b: set<T>)
    requires a <= b
    ensures |a| <= |b|
  {
    if a != {} {
      var x :| x in a;
      SubsetSmaller(a - {x}, b - {x});
    }
  }

  /** A sweep's candidates wait in `staged`, which was empty. */
  lemma StageShard<K(!new), I(!new), W, S>(r: Reactor<K, I, W, S>, l: Limits, r': Reactor<K, I, W, S>)
    requires Good(r, l) && r.staged == [] && Inv(r'.book, l.cfg) && Quiescing(r.book, r'.book, r'.staged)
    requires r'.live == r.live && r'.jobs == r.jobs && r'.flushes == r.flushes
    ensures Good(r', l)
  {
    hide Inv, LiveOk, QueuedIds, Ids, UnshedIds;
    assert KeysOf<K, S>([]) == [];
    SameTracked(r.book, r'.book, r.jobs);
    LiveFrame(r.book, r.jobs, r.live, r'.book, r.jobs);
    forall k | k in KeysOf(r'.staged) ensures k !in r.jobs {
      InFlightKey(r'.book, l.cfg, k);
    }
  }

  lemma NewIsGood<K(!new), I(!new), W, S>(l: Limits)
    ensures Good(New<K, I, W, S>(l), l)
  {
    hide Inv;
    EmptyKeeps<K, Stamped<I, W>, S>(l.cfg);
    assert KeysOf<K, S>([]) == [];
  }

  lemma LiveTracks<K(!new), I(!new), W, S>(r: Reactor<K, I, W, S>, l: Limits, k: K, id: I)
    requires Good(r, l)
    ensures (k, id) in r.live <==> id in TrackedIds(r.book, r.jobs, k)
  {
    hide Inv, TrackedIds, JobsOk;
    assert TrackedIds(r.book, r.jobs, k)[id] == if (k, id) in r.live then 1 else 0;
  }

  ghost function Budget<K, P, S>(b: Book<K, P, S>, cfg: Config, cls: nat): nat {
    if cls < |b.inflight| && cls < |cfg.maxInflight| && cfg.maxInflight[cls] > b.inflight[cls]
    then cfg.maxInflight[cls] - b.inflight[cls] else 0
  }

  /** A dispatch spends one unit of its class budget, so filling it ends. */
  lemma NextSpends<K(!new), I(!new), W, S>(r: Reactor<K, I, W, S>, l: Limits, cls: nat, now: nat)
    requires Good(r, l) && cls < |r.book.ready|
    requires Drainable(r.book) && |r.book.ready| == |l.cfg.maxInflight| == |r.book.inflight|
    ensures var (b', d) := Next(r.book, l.cfg, cls, now);
      |b'.ready| == |r.book.ready| && (d.Some? ==> Budget(b', l.cfg, cls) < Budget(r.book, l.cfg, cls))
  {
    hide Inv, LiveOk, JobsOk, Drain;
    if r.book.inflight[cls] < l.cfg.maxInflight[cls] { DrainSpends(r.book, cls, now); }
  }

  lemma {:induction false} DrainSpends<K, P, S>(b: Book<K, P, S>, cls: nat, now: nat)
    requires Drainable(b) && cls < |b.ready|
    ensures var (b', d) := Drain(b, cls, now);
      && |b'.ready| == |b.ready| && |b'.inflight| == |b.inflight|
      && b'.inflight[cls] == b.inflight[cls] + (if d.Some? then 1 else 0)
    decreases |b.ready[cls]|
  {
    hide TakeFront;
    if b.ready[cls] != [] {
      TakeFrontShrinks(b, cls, now);
      TakeFrontSpends(b, cls, now);
      if TakeFront(b, cls, now).1.None? { DrainSpends(TakeFront(b, cls, now).0, cls, now); }
    }
  }

  lemma TakeFrontSpends<K, P, S>(b: Book<K, P, S>, cls: nat, now: nat)
    requires Drainable(b) && cls < |b.ready| && b.ready[cls] != []
    ensures var (b', d) := TakeFront(b, cls, now);
      && |b'.inflight| == |b.inflight| && cls < |b.inflight|
      && b'.inflight[cls] == b.inflight[cls] + (if d.Some? then 1 else 0)
  {
  }

  function Works<K, I, W>(expired: seq<(K, nat, Stamped<I, W>)>): seq<(K, W)> {
    seq(|expired|, i requires 0 <= i < |expired| => (expired[i].0, expired[i].2.work))
  }

  lemma WorksNil<K, I, W>()
    ensures Works<K, I, W>([]) == []
  {
  }

  lemma WorksStep<K, I, W>(shed: seq<(K, W)>, expired: seq<(K, nat, Stamped<I, W>)>)
    requires expired != []
    ensures (shed + [(expired[0].0, expired[0].2.work)]) + Works(expired[1..]) == shed + Works(expired)
  {
  }

  lemma FlushesWithin<K(!new), I(!new), W, S>(r: Reactor<K, I, W, S>, l: Limits)
    requires Good(r, l)
    ensures r.flushes <= l.flushSlots
  {
    hide Inv, LiveOk, JobsOk;
  }

  lemma SweepShard<K(!new), I(!new), W, S>(r: Reactor<K, I, W, S>, l: Limits, now: nat)
    requires Good(r, l) && r.staged == []
    ensures IdleListed(r.book)
    ensures Good(Staged(r, l, now), l)
  {
    hide Inv, LiveOk, JobsOk, Sweep, Quiescing;
    SweepKeeps(r.book, l.cfg, now, l.cfg.evictIters);
    SweepEffect(r.book, l.cfg, now, l.cfg.evictIters);
    StageShard(r, l, Staged(r, l, now));
  }

  lemma FinalShard<K(!new), I(!new), W, S>(r: Reactor<K, I, W, S>, l: Limits)
    requires Good(r, l) && r.staged == []
    ensures IdleListed(r.book) && EvictAll(r.book).0.idle == []
    ensures Good(StagedAll(r), l)
  {
    hide Inv, LiveOk, JobsOk, EvictAll, Quiescing;
    EvictAllKeeps(r.book, l.cfg);
    EvictAllEffect(r.book, l.cfg);
    StageShard(r, l, StagedAll(r));
  }
}
