/** What a dispatch and the idle stamps mean, told of items, deadlines and clocks
    alone, and carried into the ledger of whole runs. */
module BookLaws {
  import opened Options
  import opened Sequences
  import opened Book
  import opened BookInvariant
  import opened BookRuns
  import opened BookTheorems

  // ---- Dispatch -------------------------------------------------------------------------------

  /** An item that has no deadline, or one still ahead. */
  predicate InTime<P>(item: Item<P>, now: nat) {
    item.expiresAt.None? || now < item.expiresAt.value
  }

  /** Past the `n` overdue items in front, the next one is taken if it is of the class,
      which it then is in time for. */
  ghost predicate Takes<P>(q: seq<Item<P>>, cls: nat, now: nat, taken: Option<Item<P>>, n: nat) {
    && n <= |q| && Overdue(q, cls, now, n)
    && match taken
       case Some(item) => n < |q| && item == q[n] && item.cls == cls && InTime(item, now)
       case None => n == |q| || q[n].cls != cls
  }

  /** From a key's queue go `n` items of the class, all past their deadline and
      listed as discarded, and with a dispatch one more, in time. */
  ghost predicate Trims<K(!new), P, S>(b: Book<K, P, S>, b': Book<K, P, S>, d: Option<Dispatch<K, P, S>>,
                                       cls: nat, now: nat, k: K, n: nat) {
    var q, q' := QueueOf(b.slots, k), QueueOf(b'.slots, k);
    && n <= |q| && Overdue(q, cls, now, n)
    && Only(b'.expired, k) == Only(b.expired, k) + Bare(q[..n])
    && if d.Some? && d.value.key == k then
         && n < |q| && q' == q[n + 1..]
         && q[n].cls == cls == d.value.cls && InTime(q[n], now)
         && d.value.payload == q[n].payload && d.value.state == ResidentOf(b.slots, k)
       else q' == q[n..]
  }

  /** Nothing of the key's queue goes. */
  ghost predicate Stays<K(!new), P, S>(b: Book<K, P, S>, b': Book<K, P, S>, k: K) {
    QueueOf(b'.slots, k) == QueueOf(b.slots, k) && Only(b'.expired, k) == Only(b.expired, k)
  }

  /** The first `m` keys of the ring are taken in turn. Each but a dispatched last one
      loses its overdue heads of the class and has no more of the class in front; the
      last one dispatched loses its own and then one item in time. No other key is
      touched, and without a dispatch the whole ring was taken. */
  ghost predicate Served<K(!new), P, S>(b: Book<K, P, S>, b': Book<K, P, S>, d: Option<Dispatch<K, P, S>>,
                                        cls: nat, now: nat, m: nat) {
    && cls < |b.ready| == |b'.ready| && m <= |b.ready[cls]| && b'.ready[cls] == b.ready[cls][m..]
    && b.expired <= b'.expired
    && (if d.Some? then m > 0 && d.value.key == b.ready[cls][m - 1] else m == |b.ready[cls]|)
    && (forall k :: k !in b.ready[cls][..m] ==> Stays(b, b', k))
    && (forall i :: 0 <= i < m ==> Turned(b, b', d, cls, now, b.ready[cls][i]))
  }

  ghost predicate Turned<K(!new), P, S>(b: Book<K, P, S>, b': Book<K, P, S>, d: Option<Dispatch<K, P, S>>,
                                        cls: nat, now: nat, k: K) {
    exists n: nat :: Trims(b, b', d, cls, now, k, n)
      && ((d.Some? && d.value.key == k) || n == |QueueOf(b.slots, k)| || QueueOf(b.slots, k)[n].cls != cls)
  }

  /** What `next` does, on any book: nothing when the class has no budget left, and
      otherwise what its ring, taken in order, comes to. */
  ghost predicate DispatchLaw<K(!new), P, S>(b: Book<K, P, S>, b': Book<K, P, S>, d: Option<Dispatch<K, P, S>>,
                                             cfg: Config, cls: nat, now: nat) {
    && cls < |b.inflight| && cls < |cfg.maxInflight|
    && if b.inflight[cls] >= cfg.maxInflight[cls] then d.None? && b' == b
       else exists m: nat :: Served(b, b', d, cls, now, m)
  }

  lemma DispatchedClass<K(!new), P, S>(b: Book<K, P, S>, b': Book<K, P, S>, d: Option<Dispatch<K, P, S>>, cfg: Config,
                                       cls: nat, now: nat)
    requires DispatchLaw(b, b', d, cfg, cls, now)
    ensures d.Some? ==> d.value.cls == cls
  {
    hide Stays, Overdue;
    if d.Some? {
      var m: nat :| Served(b, b', d, cls, now, m);
      assert Turned(b, b', d, cls, now, b.ready[cls][m - 1]);
    }
  }

  lemma FrontServed<K(!new), P, S>(b: Book<K, P, S>, cfg: Config, cls: nat, now: nat)
    requires Inv(b, cfg) && Drainable(b) && cls < |b.ready| && b.ready[cls] != []
    ensures var (b', d) := TakeFront(b, cls, now);
      var k := b.ready[cls][0];
      && |b'.ready| == |b.ready| && b'.ready[cls] == b.ready[cls][1..] && b.expired <= b'.expired
      && (d.Some? ==> d.value.key == k) && Turned(b, b', d, cls, now, k)
      && forall j :: j != k ==> Stays(b, b', j)
  {
    hide AccountsOk, Place, ExpiredHeads, Only, Bare, Tagged, TakeFront, Drainable;
    TakeFrontShrinks(b, cls, now);
    TakeFrontShape(b, cls, now);
    FrontIsReady(b, cls);
    var (b', d) := TakeFront(b, cls, now);
    var k := b.ready[cls][0];
    var q := QueueOf(b.slots, k);
    var n := ExpiredHeads(q, cls, now);
    HeadsAreOverdue(q, cls, now);
    forall j ensures Only(b'.expired, j) == Only(b.expired, j) + (if j == k then Bare(q[..n]) else []) {
      OnlyAppend(b.expired, k, q[..n], j);
    }
    assert Trims(b, b', d, cls, now, k, n);
  }

  /** What the count of discarded heads is of. */
  lemma {:induction false} HeadsAreOverdue<P>(q: seq<Item<P>>, cls: nat, now: nat)
    ensures Overdue(q, cls, now, ExpiredHeads(q, cls, now))
    ensures var n := ExpiredHeads(q, cls, now); n < |q| && q[n].cls == cls ==> InTime(q[n], now)
  {
  }

  lemma StaysThen<K(!new), P, S>(a: Book<K, P, S>, b: Book<K, P, S>, c: Book<K, P, S>, k: K)
    requires Stays(a, b, k) && Stays(b, c, k)
    ensures Stays(a, c, k)
  {
  }

  /** A key once taken stays as it was left. */
  lemma TurnedThen<K(!new), P, S>(a: Book<K, P, S>, b: Book<K, P, S>, c: Book<K, P, S>, d: Option<Dispatch<K, P, S>>,
                                  cls: nat, now: nat, k: K)
    requires Turned(a, b, None, cls, now, k) && Stays(b, c, k) && (d.Some? ==> d.value.key != k)
    ensures Turned(a, c, d, cls, now, k)
  {
    hide Overdue, Only, Bare;
    var n: nat :| Trims(a, b, None, cls, now, k, n)
      && (n == |QueueOf(a.slots, k)| || QueueOf(a.slots, k)[n].cls != cls);
    assert Trims(a, c, d, cls, now, k, n);
  }

  /** A key untouched at first is taken later as it would have been. */
  lemma ThenTurned<K(!new), P, S>(a: Book<K, P, S>, b: Book<K, P, S>, c: Book<K, P, S>, d: Option<Dispatch<K, P, S>>,
                                  cls: nat, now: nat, k: K)
    requires Stays(a, b, k) && ResidentOf(a.slots, k) == ResidentOf(b.slots, k) && Turned(b, c, d, cls, now, k)
    ensures Turned(a, c, d, cls, now, k)
  {
    hide Overdue, Only, Bare;
    var n: nat :| Trims(b, c, d, cls, now, k, n)
      && ((d.Some? && d.value.key == k) || n == |QueueOf(b.slots, k)| || QueueOf(b.slots, k)[n].cls != cls);
    assert Trims(a, c, d, cls, now, k, n);
  }

  lemma ServedMore<K(!new), P, S>(b: Book<K, P, S>, b1: Book<K, P, S>, b': Book<K, P, S>, d: Option<Dispatch<K, P, S>>,
                                  cls: nat, now: nat, m: nat)
    requires cls < |b.ready| == |b1.ready| && b.ready[cls] != [] && b1.ready[cls] == b.ready[cls][1..]
    requires Distinct(b.ready[cls]) && b.expired <= b1.expired && Touches(b, b1, b.ready[cls][0])
    requires Turned(b, b1, None, cls, now, b.ready[cls][0])
    requires forall k :: k != b.ready[cls][0] ==> Stays(b, b1, k)
    requires Served(b1, b', d, cls, now, m)
    ensures Served(b, b', d, cls, now, m + 1)
  {
    hide Turned, Stays;
    var ring := b.ready[cls];
    DropFirst(ring);
    assert ring[..m + 1] == [ring[0]] + ring[1..][..m];
    assert ring[0] !in ring[1..][..m];
    forall k | k !in ring[..m + 1] ensures Stays(b, b', k) {
      StaysThen(b, b1, b', k);
    }
    forall i | 0 <= i < m + 1 ensures Turned(b, b', d, cls, now, ring[i]) {
      if i == 0 {
        if d.Some? { assert d.value.key == ring[1..][m - 1]; }
        TurnedThen(b, b1, b', d, cls, now, ring[0]);
      } else {
        assert ring[1..][i - 1] == ring[i] && ring[i] in ring[1..];
        ThenTurned(b, b1, b', d, cls, now, ring[i]);
      }
    }
  }

  lemma {:induction false} DrainServed<K(!new), P, S>(b: Book<K, P, S>, cfg: Config, cls: nat, now: nat)
    returns (m: nat)
    requires Inv(b, cfg) && Drainable(b) && cls < |b.ready| == |cfg.maxInflight|
    requires b.inflight[cls] < cfg.maxInflight[cls]
    ensures Served(b, Drain(b, cls, now).0, Drain(b, cls, now).1, cls, now, m)
    decreases |b.ready[cls]|
  {
    hide InvHeld, TakeFront, Turned, Stays, Touches;
    m := 0;
    if b.ready[cls] == [] {
      NobodyMoves(b, cls);
    } else {
      TakeFrontShrinks(b, cls, now);
      TakeFrontKeeps(b, cfg, cls, now);
      TakeFrontBudget(b, cls, now);
      TakeFrontShape(b, cls, now);
      FrontServed(b, cfg, cls, now);
      RingDistinct(b, cfg, cls);
      var (b1, d) := TakeFront(b, cls, now);
      if d.Some? {
        m := 1;
        assert b.ready[cls][..1] == [b.ready[cls][0]];
      } else {
        m := DrainServed(b1, cfg, cls, now);
        ServedMore(b, b1, Drain(b1, cls, now).0, Drain(b1, cls, now).1, cls, now, m);
        m := m + 1;
      }
    }
  }

  lemma NobodyMoves<K(!new), P, S>(b: Book<K, P, S>, cls: nat)
    requires cls < |b.ready|
    ensures forall k :: Stays(b, b, k)
  {
  }

  /** One call of `next`, on every book: it dispatches exactly the first item in line
      that is in time, and discards exactly the overdue heads before it. */
  lemma NextLaw<K(!new), P, S>(b: Book<K, P, S>, cfg: Config, cls: nat, now: nat)
    requires Inv(b, cfg) && cls < |b.ready|
    ensures Drainable(b) && |b.ready| == |cfg.maxInflight|
    ensures DispatchLaw(b, Next(b, cfg, cls, now).0, Next(b, cfg, cls, now).1, cfg, cls, now)
  {
    hide InvHeld, Drain, Served;
    InvDrainable(b, cfg, {});
    SameLengths(b, cfg);
    if b.inflight[cls] < cfg.maxInflight[cls] { var m := DrainServed(b, cfg, cls, now); }
  }

  /** A key has an item of the class that is in time, behind none but overdue ones. */
  ghost predicate Servable<P>(q: seq<Item<P>>, cls: nat, now: nat) {
    exists n: nat :: n < |q| && Overdue(q, cls, now, n) && q[n].cls == cls && InTime(q[n], now)
  }

  /** So `next` dispatches exactly when the class has budget left and some key of its
      ring has an item to serve. */
  lemma NextServesIfItCan<K(!new), P, S>(b: Book<K, P, S>, cfg: Config, cls: nat, now: nat)
    requires Inv(b, cfg) && cls < |b.ready|
    ensures Drainable(b) && |b.ready| == |cfg.maxInflight| == |b.inflight|
    ensures Next(b, cfg, cls, now).1.Some? <==>
      && b.inflight[cls] < cfg.maxInflight[cls]
      && exists k :: k in b.ready[cls] && Servable(QueueOf(b.slots, k), cls, now)
  {
    hide InvHeld, Next, Only, Bare, Overdue;
    SameLengths(b, cfg);
    NextLaw(b, cfg, cls, now);
    var (b', d) := Next(b, cfg, cls, now);
    if b.inflight[cls] < cfg.maxInflight[cls] {
      var m: nat :| Served(b, b', d, cls, now, m);
      var ring := b.ready[cls];
      if d.Some? {
        assert Turned(b, b', d, cls, now, ring[m - 1]);
        var n: nat :| Trims(b, b', d, cls, now, d.value.key, n);
        assert Servable(QueueOf(b.slots, d.value.key), cls, now);
      } else {
        forall k | k in ring ensures !Servable(QueueOf(b.slots, k), cls, now) {
          var i :| 0 <= i < |ring| && ring[i] == k;
          assert Turned(b, b', d, cls, now, ring[i]);
          var n: nat :| Trims(b, b', d, cls, now, k, n)
            && (n == |QueueOf(b.slots, k)| || QueueOf(b.slots, k)[n].cls != cls);
          NotServable(QueueOf(b.slots, k), cls, now, n);
        }
      }
    }
  }

  lemma NotServable<P>(q: seq<Item<P>>, cls: nat, now: nat, n: nat)
    requires Overdue(q, cls, now, n) && (n == |q| || q[n].cls != cls)
    ensures !Servable(q, cls, now)
  {
    forall j: nat | j < |q| && Overdue(q, cls, now, j) && q[j].cls == cls ensures !InTime(q[j], now) {
    }
  }

  // ---- Fates and deadlines ------------------------------------------------------------------------

  /** A fate newly given: an item expired after its deadline, or started in time. */
  predicate FateFits<P>(item: Item<P>, fate: Fate, now: nat) {
    match fate
    case Expired => item.expiresAt.Some? && item.expiresAt.value <= now
    case Running => InTime(item, now)
    case Completed => false
  }

  ghost predicate KeyFits<P>(admitted: seq<Item<P>>, fates: seq<Fate>, fates': seq<Fate>, now: nat) {
    && |fates'| <= |admitted|
    && forall i :: |fates| <= i < |fates'| ==> FateFits(admitted[i], fates'[i], now)
  }

  ghost predicate KeyExpires(fates: seq<Fate>, fates': seq<Fate>) {
    forall i :: |fates| <= i < |fates'| ==> fates'[i] == Expired
  }

  ghost predicate FatesFit<K(!new), P, S>(w: World<K, P, S>, w': World<K, P, S>, now: nat) {
    forall k :: KeyFits(Get(w'.admitted, k), Get(w.fates, k), Get(w'.fates, k), now)
  }

  ghost predicate AllExpired<K(!new), P, S>(w: World<K, P, S>, w': World<K, P, S>) {
    forall k :: KeyExpires(Get(w.fates, k), Get(w'.fates, k))
  }

  /** One key's next fates: its overdue heads expire, and the item after them starts. */
  lemma KeyFatesFit<P>(queue: seq<Item<P>>, admitted: seq<Item<P>>, fates: seq<Fate>, cls: nat, now: nat, starts: bool)
    requires |fates| <= |admitted| && queue == admitted[|fates|..]
    requires var n := ExpiredHeads(queue, cls, now); starts ==> n < |queue| && queue[n].cls == cls
    ensures var n := ExpiredHeads(queue, cls, now);
      var fates' := fates + (Repeat(Expired, n) + (if starts then [Running] else []));
      KeyFits(admitted, fates, fates', now) && (!starts ==> KeyExpires(fates, fates'))
  {
    HeadsAreOverdue(queue, cls, now);
    var n := ExpiredHeads(queue, cls, now);
    var fates' := fates + (Repeat(Expired, n) + (if starts then [Running] else []));
    forall i | |fates| <= i < |fates'| ensures FateFits(admitted[i], fates'[i], now) {
      assert admitted[i] == queue[i - |fates|];
    }
  }

  lemma TakeFrontFates<K(!new), P, S>(w: World<K, P, S>, cfg: Config, cls: nat)
    requires WorldOk(w, cfg) && Drainable(w.book) && cls < |w.book.ready| && w.book.ready[cls] != []
    ensures var w' := TakeFrontW(w, cls, w.clock);
      && w'.admitted == w.admitted && FatesFit(w, w', w.clock)
      && (TakeFront(w.book, cls, w.clock).1.None? ==> AllExpired(w, w'))
  {
    hide TakeFront, InvHeld, KeyOk, Stamped, KeyFits, KeyExpires;
    TakeFrontShape(w.book, cls, w.clock);
    var key := w.book.ready[cls][0];
    var w' := TakeFrontW(w, cls, w.clock);
    forall k
      ensures KeyFits(Get(w'.admitted, k), Get(w.fates, k), Get(w'.fates, k), w.clock)
      ensures TakeFront(w.book, cls, w.clock).1.None? ==> KeyExpires(Get(w.fates, k), Get(w'.fates, k))
    {
      assert Account(w, k);
      LedgerLengths(w, k);
      if k == key {
        KeyFatesFit(QueueOf(w.book.slots, key), Get(w.admitted, key), Get(w.fates, key), cls, w.clock,
                    TakeFront(w.book, cls, w.clock).1.Some?);
      } else {
        NoFates(Get(w.admitted, k), Get(w.fates, k), w.clock);
      }
    }
  }

  lemma NoFates<P>(admitted: seq<Item<P>>, fates: seq<Fate>, now: nat)
    requires |fates| <= |admitted|
    ensures KeyFits(admitted, fates, fates, now) && KeyExpires(fates, fates)
  {
  }

  lemma LedgerLengths<K(!new), P, S>(w: World<K, P, S>, k: K)
    requires Account(w, k)
    ensures |Get(w.fates, k)| <= |Get(w.admitted, k)|
    ensures QueueOf(w.book.slots, k) == Get(w.admitted, k)[|Get(w.fates, k)|..]
  {
  }

  lemma KeyThen<P>(items: seq<Item<P>>, items': seq<Item<P>>, f: seq<Fate>, f1: seq<Fate>, f2: seq<Fate>, now: nat)
    requires KeyFits(items, f, f1, now) && KeyExpires(f, f1) && KeyFits(items', f1, f2, now)
    requires items <= items' && FatesGrow(f1, f2)
    ensures KeyFits(items', f, f2, now)
  {
  }

  lemma FatesThen<K(!new), P, S>(a: World<K, P, S>, b: World<K, P, S>, c: World<K, P, S>, now: nat)
    requires FatesFit(a, b, now) && AllExpired(a, b) && FatesFit(b, c, now) && HistoryGrows(b, c)
    ensures FatesFit(a, c, now)
  {
    hide KeyFits, KeyExpires, FatesGrow;
    forall k ensures KeyFits(Get(c.admitted, k), Get(a.fates, k), Get(c.fates, k), now) {
      assert FatesGrow(Get(b.fates, k), Get(c.fates, k)) && Get(b.admitted, k) <= Get(c.admitted, k);
      KeyThen(Get(b.admitted, k), Get(c.admitted, k), Get(a.fates, k), Get(b.fates, k), Get(c.fates, k), now);
    }
  }

  lemma {:induction false} DrainFates<K(!new), P, S>(w: World<K, P, S>, cfg: Config, cls: nat)
    requires WorldOk(w, cfg) && Drainable(w.book) && cls < |w.book.ready| == |cfg.maxInflight|
    requires w.book.inflight[cls] < cfg.maxInflight[cls]
    ensures FatesFit(w, DrainW(w, cls, w.clock), w.clock)
    decreases |w.book.ready[cls]|
  {
    hide WorldOk, TakeFront, FatesFit, AllExpired, HistoryGrows;
    if w.book.ready[cls] == [] {
      NothingGrows(w, w);
      NoNewFates(w, w, cfg, w.clock);
    } else {
      TakeFrontShrinks(w.book, cls, w.clock);
      TakeFrontFates(w, cfg, cls);
      if TakeFront(w.book, cls, w.clock).1.None? {
        var w1 := TakeFrontW(w, cls, w.clock);
        TakeFrontWorld(w, cfg, cls);
        TakeFrontBudget(w.book, cls, w.clock);
        DrainFates(w1, cfg, cls);
        DrainGrows(w1, cls, w.clock);
        FatesThen(w, w1, DrainW(w1, cls, w.clock), w.clock);
      }
    }
  }

  lemma NoNewFates<K(!new), P, S>(w: World<K, P, S>, w': World<K, P, S>, cfg: Config, now: nat)
    requires WorldOk(w, cfg) && HistoryGrows(w, w') && forall k :: |Get(w'.fates, k)| == |Get(w.fates, k)|
    ensures FatesFit(w, w', now)
  {
    hide Inv, KeyOk, Stamped, FatesGrow;
    forall k ensures KeyFits(Get(w'.admitted, k), Get(w.fates, k), Get(w'.fates, k), now) {
      assert Account(w, k);
      LedgerLengths(w, k);
    }
  }

  /** Only a dispatch gives fates, and each fits its item's deadline at that moment. */
  lemma StepFates<K(!new), P, S>(w: World<K, P, S>, cfg: Config, op: Op<K, P, S>)
    requires WorldOk(w, cfg) && Allowed(w, op)
    ensures FatesFit(w, Step(w, cfg, op), Step(w, cfg, op).clock)
    ensures !op.OpNext? ==> forall k :: |Get(Step(w, cfg, op).fates, k)| == |Get(w.fates, k)|
    ensures FatesStay(w, Step(w, cfg, op))
    ensures w.clock <= Step(w, cfg, op).clock && (op.OpNext? ==> Step(w, cfg, op).clock == op.now)
  {
    hide InvHeld, Account, Stamped, FatesFit, HistoryGrows, FatesStay, DrainW, SweepW, EvictAllW;
    InvDrainable(w.book, cfg, {});
    StepGrows(w, cfg, op);
    var w' := Step(w, cfg, op);
    match op
    case OpAdmit(key, item) =>
      AdmitKeeps(w.book, cfg, key, item);
      SameFates(w, w', cfg);
    case OpNext(cls, now) =>
      NextFates(w, cfg, cls, now);
      PrefixStays(w, w');
    case OpPopExpired => SameFates(w, w', cfg);
    case OpComplete(key, kept, now) =>
      CompleteKeeps(w.book, cfg, key, w.book.running[key], kept, now);
      SettledFates(w, w', key);
      NoNewFates(w, w', cfg, w'.clock);
    case OpEvict(now) =>
      SweepFates(w.(clock := now), cfg, now, cfg.evictIters);
      SameFates(w, w', cfg);
    case OpEvictAll =>
      EvictAllFates(w, cfg);
      SameFates(w, w', cfg);
    case OpFinishEvict(key, now) =>
      FinishEvictKeeps(w.book, cfg, key, now);
      SameFates(w, w', cfg);
  }

  /** A fate once given stays, but for the item in flight, which may complete. */
  ghost predicate FatesStay<K(!new), P, S>(w: World<K, P, S>, w': World<K, P, S>) {
    forall k, i :: 0 <= i < |Get(w.fates, k)| ==>
      && i < |Get(w'.fates, k)|
      && (Get(w'.fates, k)[i] == Get(w.fates, k)[i]
          || (Get(w.fates, k)[i] == Running && Get(w'.fates, k)[i] == Completed))
  }

  lemma SameFates<K(!new), P, S>(w: World<K, P, S>, w': World<K, P, S>, cfg: Config)
    requires WorldOk(w, cfg) && HistoryGrows(w, w') && w'.fates == w.fates
    ensures FatesFit(w, w', w'.clock) && FatesStay(w, w')
  {
    hide WorldOk, HistoryGrows, FatesFit;
    NoNewFates(w, w', cfg, w'.clock);
  }

  lemma PrefixStays<K(!new), P, S>(w: World<K, P, S>, w': World<K, P, S>)
    requires forall k :: Get(w.fates, k) <= Get(w'.fates, k)
    ensures FatesStay(w, w')
  {
  }

  lemma SettledFates<K(!new), P, S>(w: World<K, P, S>, w': World<K, P, S>, key: K)
    requires w'.fates == w.fates[key := Settle(Get(w.fates, key))] && Account(w, key) && key in w.book.running
    ensures FatesStay(w, w') && forall k :: |Get(w'.fates, k)| == |Get(w.fates, k)|
  {
    hide Account, Settle;
    OutIsRunning(w, key);
    SettleOne(Get(w.fates, key));
    assert forall k :: Get(w'.fates, k) == if k == key then Settle(Get(w.fates, key)) else Get(w.fates, k);
  }

  lemma SettleOne(fates: seq<Fate>)
    requires fates != [] && fates[|fates| - 1] == Running
    ensures |Settle(fates)| == |fates| && forall i :: 0 <= i < |fates| ==>
      Settle(fates)[i] == fates[i] || (fates[i] == Running && Settle(fates)[i] == Completed)
  {
  }

  lemma {:induction false} DrainStays<K(!new), P, S>(w: World<K, P, S>, cls: nat, now: nat)
    requires Drainable(w.book) && cls < |w.book.ready|
    ensures forall k :: Get(w.fates, k) <= Get(DrainW(w, cls, now).fates, k)
    decreases |w.book.ready[cls]|
  {
    hide TakeFront;
    if w.book.ready[cls] != [] {
      TakeFrontShrinks(w.book, cls, now);
      var w1 := TakeFrontW(w, cls, now);
      assert forall k :: Get(w.fates, k) <= Get(w1.fates, k);
      if TakeFront(w.book, cls, now).1.None? { DrainStays(w1, cls, now); }
    }
  }

  lemma NextFates<K(!new), P, S>(w: World<K, P, S>, cfg: Config, cls: nat, now: nat)
    requires WorldOk(w, cfg) && Drainable(w.book) && cls < |w.book.ready| && w.clock <= now
    ensures |w.book.ready| == |cfg.maxInflight|
    ensures FatesFit(w, NextW(w, cfg, cls, now), now) && NextW(w, cfg, cls, now).clock == now
    ensures forall k :: Get(w.fates, k) <= Get(NextW(w, cfg, cls, now).fates, k)
  {
    hide InvHeld, Account, Stamped, FatesFit, DrainW;
    SameLengths(w.book, cfg);
    TickWorld(w, cfg, now);
    var w1 := w.(clock := now);
    if w.book.inflight[cls] < cfg.maxInflight[cls] {
      DrainFates(w1, cfg, cls);
      DrainClock(w1, cls, now);
      DrainStays(w1, cls, now);
      FatesFrom(w, w1, DrainW(w1, cls, now), now);
    } else {
      NothingGrows(w, w1);
      NoNewFates(w, w1, cfg, now);
    }
  }

  lemma NothingGrows<K(!new), P, S>(w: World<K, P, S>, w': World<K, P, S>)
    requires w'.admitted == w.admitted && w'.fates == w.fates && w'.kept == w.kept && w'.handed == w.handed
    ensures HistoryGrows(w, w')
  {
  }

  lemma FatesFrom<K(!new), P, S>(w: World<K, P, S>, w1: World<K, P, S>, w': World<K, P, S>, now: nat)
    requires FatesFit(w1, w', now) && w1.fates == w.fates
    ensures FatesFit(w, w', now)
  {
  }

  lemma {:induction false} DrainClock<K(!new), P, S>(w: World<K, P, S>, cls: nat, now: nat)
    requires Drainable(w.book) && cls < |w.book.ready|
    ensures DrainW(w, cls, now).clock == w.clock
    decreases |w.book.ready[cls]|
  {
    hide TakeFront;
    if w.book.ready[cls] != [] {
      TakeFrontShrinks(w.book, cls, now);
      if TakeFront(w.book, cls, now).1.None? { DrainClock(TakeFrontW(w, cls, now), cls, now); }
    }
  }

  lemma {:induction false} SweepFates<K(!new), P, S>(w: World<K, P, S>, cfg: Config, now: nat, iters: nat)
    requires Inv(w.book, cfg) && IdleListed(w.book)
    ensures SweepW(w, cfg, now, iters).fates == w.fates && SweepW(w, cfg, now, iters).clock == w.clock
    decreases iters
  {
    hide ReleaseOldest, InvHeld;
    if iters > 0 && w.book.idle != [] && (OldEnough(w.book, cfg, w.book.idle[0], now) || OverCapacity(w.book, cfg)) {
      ReleaseOldestKeeps(w.book, cfg);
      InvDrainable(ReleaseOldest(w.book).0, cfg, {});
      SweepFates(ReleaseOldestW(w), cfg, now, iters - 1);
    }
  }

  lemma {:induction false} EvictAllFates<K(!new), P, S>(w: World<K, P, S>, cfg: Config)
    requires Inv(w.book, cfg) && IdleListed(w.book)
    ensures EvictAllW(w).fates == w.fates && EvictAllW(w).clock == w.clock
    decreases |w.book.idle|
  {
    hide Release, InvHeld;
    if w.book.idle != [] {
      ReleaseOldestKeeps(w.book, cfg);
      ReleaseShortens(w.book, w.book.idle[0]);
      InvDrainable(ReleaseOldest(w.book).0, cfg, {});
      EvictAllFates(ReleaseOldestW(w), cfg);
    }
  }

  /** The dispatch at which item `i` of key `k` was started, in time. */
  ghost predicate StartedInTime<K(!new), P, S>(ws: seq<World<K, P, S>>, ops: seq<Op<K, P, S>>, k: K, i: nat,
                                               item: Item<P>, m: nat)
    requires |ws| == |ops| + 1
  {
    && m < |ops| && ops[m].OpNext? && |Get(ws[m].fates, k)| <= i < |Get(ws[m + 1].fates, k)|
    && InTime(item, ops[m].now)
  }

  /** Over every run: an item discarded had reached its deadline by then, and one
      that was started, whether it has completed or not, was started in time. */
  lemma {:induction false} FatesFollowDeadlines<K(!new), P, S>(cfg: Config, ws: seq<World<K, P, S>>,
                                                              ops: seq<Op<K, P, S>>, n: nat, k: K, i: nat)
    requires Run(cfg, ws, ops) && ws[0] == Begin(cfg) && n < |ws| && i < |Get(ws[n].fates, k)|
    ensures i < |Get(ws[n].admitted, k)|
    ensures var item := Get(ws[n].admitted, k)[i];
      if Get(ws[n].fates, k)[i] == Expired then item.expiresAt.Some? && item.expiresAt.value <= ws[n].clock
      else exists m: nat :: m < n && StartedInTime(ws, ops, k, i, item, m)
    decreases n
  {
    hide InvHeld, Account, Stamped, Step, Allowed, StartedInTime, FateFits, FatesStay, FatesFit, HistoryGrows;
    RunShape(cfg, ws, ops);
    BeginOk<K, P, S>(cfg);
    RunKeeps(cfg, ws, ops, n);
    assert Account(ws[n], k);
    LedgerLengths(ws[n], k);
    if n > 0 {
      RunKeeps(cfg, ws, ops, n - 1);
      StepGrows(ws[n - 1], cfg, ops[n - 1]);
      StepFates(ws[n - 1], cfg, ops[n - 1]);
      if i < |Get(ws[n - 1].fates, k)| {
        FatesFollowDeadlines(cfg, ws, ops, n - 1, k, i);
        FateStays(ws[n - 1], ws[n], k, i);
      } else {
        LastFate(ws, ops, n, k, i, Get(ws[n].admitted, k)[i]);
      }
    }
  }

  lemma FateStays<K(!new), P, S>(w: World<K, P, S>, w': World<K, P, S>, k: K, i: nat)
    requires HistoryGrows(w, w') && FatesStay(w, w') && i < |Get(w.fates, k)| && i < |Get(w.admitted, k)|
    ensures i < |Get(w'.admitted, k)| && Get(w'.admitted, k)[i] == Get(w.admitted, k)[i] && i < |Get(w'.fates, k)|
    ensures Get(w.fates, k)[i] == Expired <==> Get(w'.fates, k)[i] == Expired
  {
    hide FatesGrow;
    assert Get(w.admitted, k) <= Get(w'.admitted, k);
    var fate := Get(w.fates, k)[i];
    assert Get(w'.fates, k)[i] == fate || (fate == Running && Get(w'.fates, k)[i] == Completed);
  }

  lemma LastFate<K(!new), P, S>(ws: seq<World<K, P, S>>, ops: seq<Op<K, P, S>>, n: nat, k: K, i: nat, item: Item<P>)
    requires |ws| == |ops| + 1 && 0 < n < |ws|
    requires |Get(ws[n - 1].fates, k)| <= i < |Get(ws[n].fates, k)| && i < |Get(ws[n].admitted, k)|
    requires item == Get(ws[n].admitted, k)[i] && FatesFit(ws[n - 1], ws[n], ws[n].clock)
    requires ops[n - 1].OpNext? && ws[n].clock == ops[n - 1].now
    ensures if Get(ws[n].fates, k)[i] == Expired then item.expiresAt.Some? && item.expiresAt.value <= ws[n].clock
            else StartedInTime(ws, ops, k, i, item, n - 1)
  {
  }

  // ---- Idle stamps ------------------------------------------------------------------------------------

  /** A key idle before and after keeps its stamp; one newly idle is stamped `now`. */
  ghost predicate Stamps<K(!new), P, S>(b: Book<K, P, S>, b': Book<K, P, S>, now: nat) {
    && (forall k :: k in b'.idle ==> k in b'.slots)
    && (forall k :: k in b'.idle && k in b.idle ==> k in b.slots && b'.slots[k].idleSince == b.slots[k].idleSince)
    && (forall k :: k in b'.idle && k !in b.idle ==> b'.slots[k].idleSince == now)
  }

  /** One key is rewritten, and joins the idle list now or leaves it or neither. */
  lemma StampsOne<K(!new), P, S>(b: Book<K, P, S>, b': Book<K, P, S>, key: K, now: nat)
    requires Touches(b, b', key) && (forall k :: k in b.idle ==> k in b.slots)
    requires forall k :: k in b'.idle && k != key ==> k in b.idle
    requires key in b'.idle ==> key !in b.idle && key in b'.slots && b'.slots[key].idleSince == now
    ensures Stamps(b, b', now)
  {
  }

  lemma StampsThen<K(!new), P, S>(a: Book<K, P, S>, b: Book<K, P, S>, c: Book<K, P, S>, now: nat)
    requires Stamps(a, b, now) && Stamps(b, c, now) && forall k :: k in c.idle && k in a.idle ==> k in b.idle
    ensures Stamps(a, c, now)
  {
  }

  lemma IdleKnown<K, P, S>(b: Book<K, P, S>, cfg: Config)
    requires Inv(b, cfg)
    ensures forall k :: k in b.idle ==> k in b.slots
    ensures forall k :: k in b.idle ==> b.slots[k].presence.Idle?
  {
    hide AccountsOk;
  }

  lemma TakeFrontStampsOne<K(!new), P, S>(b: Book<K, P, S>, cfg: Config, cls: nat, now: nat)
    requires Inv(b, cfg) && Drainable(b) && cls < |b.ready| && b.ready[cls] != []
    ensures Stamps(b, TakeFront(b, cls, now).0, now) && b.idle <= TakeFront(b, cls, now).0.idle
  {
    hide InvHeld, Touches, ExpiredHeads;
    var key, b' := b.ready[cls][0], TakeFront(b, cls, now).0;
    TakeFrontShape(b, cls, now);
    FrontNotRunning(b, cfg, cls);
    IdleKnown(b, cfg);
    StampsOne(b, b', key, now);
  }

  lemma {:induction false} DrainStamps<K(!new), P, S>(b: Book<K, P, S>, cfg: Config, cls: nat, now: nat)
    requires Inv(b, cfg) && Drainable(b) && cls < |b.ready| == |cfg.maxInflight|
    requires b.inflight[cls] < cfg.maxInflight[cls]
    ensures Stamps(b, Drain(b, cls, now).0, now) && b.idle <= Drain(b, cls, now).0.idle
    decreases |b.ready[cls]|
  {
    hide InvHeld, TakeFront, Stamps;
    if b.ready[cls] == [] {
      IdleKnown(b, cfg);
      SameStamps(b, b, now);
    } else {
      TakeFrontShrinks(b, cls, now);
      TakeFrontKeeps(b, cfg, cls, now);
      TakeFrontBudget(b, cls, now);
      TakeFrontStampsOne(b, cfg, cls, now);
      if TakeFront(b, cls, now).1.None? {
        var b1 := TakeFront(b, cls, now).0;
        DrainStamps(b1, cfg, cls, now);
        StampsThen(b, b1, Drain(b1, cls, now).0, now);
      }
    }
  }

  lemma SameStamps<K(!new), P, S>(b: Book<K, P, S>, b': Book<K, P, S>, now: nat)
    requires forall k :: k in b.idle ==> k in b.slots
    requires (forall k :: k in b'.idle ==> k in b.idle && k in b'.slots && b'.slots[k] == b.slots[k])
    ensures Stamps(b, b', now)
  {
  }

  lemma {:induction false} SweepStamps<K(!new), P, S>(b: Book<K, P, S>, cfg: Config, now: nat, iters: nat)
    requires Inv(b, cfg) && IdleListed(b)
    ensures forall k :: k in Sweep(b, cfg, now, iters).0.idle ==>
      k in b.idle && k in b.slots && k in Sweep(b, cfg, now, iters).0.slots
      && Sweep(b, cfg, now, iters).0.slots[k] == b.slots[k]
    decreases iters
  {
    hide ReleaseOldest, InvHeld;
    IdleKnown(b, cfg);
    if iters > 0 && b.idle != [] && (OldEnough(b, cfg, b.idle[0], now) || OverCapacity(b, cfg)) {
      ReleaseOldestKeeps(b, cfg);
      InvDrainable(ReleaseOldest(b).0, cfg, {});
      ReleaseShape(b);
      OldestIsEmpty(b, cfg);
      SweepStamps(ReleaseOldest(b).0, cfg, now, iters - 1);
    }
  }

  lemma NextStamps<K(!new), P, S>(w: World<K, P, S>, cfg: Config, cls: nat, now: nat)
    requires WorldOk(w, cfg) && Drainable(w.book) && cls < |w.book.ready| && w.clock <= now
    ensures |w.book.ready| == |cfg.maxInflight|
    ensures Stamps(w.book, NextW(w, cfg, cls, now).book, now)
  {
    hide InvHeld, Account, Stamped, Stamps, Drain, DrainW;
    IdleKnown(w.book, cfg);
    SameLengths(w.book, cfg);
    if w.book.inflight[cls] < cfg.maxInflight[cls] {
      DrainStamps(w.book, cfg, cls, now);
      DrainBook(w.(clock := now), cls, now);
    } else {
      SameStamps(w.book, w.book, now);
    }
  }

  /** A sweep leaves the stamps of the keys that stay idle. */
  lemma EvictStamps<K(!new), P, S>(w: World<K, P, S>, cfg: Config, now: nat)
    requires WorldOk(w, cfg) && IdleListed(w.book) && w.clock <= now
    ensures var w' := SweepW(w.(clock := now), cfg, now, cfg.evictIters);
            Stamps(w.book, w'.book, now) && w'.clock == now
  {
    hide InvHeld, Account, Stamped, Stamps, Sweep, SweepW;
    IdleKnown(w.book, cfg);
    TickWorld(w, cfg, now);
    SweepWorld(w.(clock := now), cfg, now, cfg.evictIters);
    SweepFates(w.(clock := now), cfg, now, cfg.evictIters);
    SweepStamps(w.book, cfg, now, cfg.evictIters);
    SameStamps(w.book, Sweep(w.book, cfg, now, cfg.evictIters).0, now);
  }

  /** Every operation leaves the stamps of the idle keys be, and stamps those it makes
      idle with the clock. */
  lemma StepStamps<K(!new), P, S>(w: World<K, P, S>, cfg: Config, op: Op<K, P, S>)
    requires WorldOk(w, cfg) && Allowed(w, op)
    ensures Stamps(w.book, Step(w, cfg, op).book, Step(w, cfg, op).clock)
  {
    hide InvHeld, Account, Stamped, Stamps, Touches, Admit, Complete, FinishEvict, NextW, SweepW, EvictAll;
    InvDrainable(w.book, cfg, {});
    IdleKnown(w.book, cfg);
    StepFates(w, cfg, op);
    var w' := Step(w, cfg, op);
    match op
    case OpAdmit(key, item) =>
      AdmitKeeps(w.book, cfg, key, item);
      AdmitShape(w.book, key, item);
      AdmitIdle(w.book, cfg, key, item);
      StampsOne(w.book, w'.book, key, w'.clock);
    case OpNext(cls, now) => NextStamps(w, cfg, cls, now);
    case OpPopExpired => SameStamps(w.book, w'.book, w'.clock);
    case OpComplete(key, kept, now) =>
      CompleteKeeps(w.book, cfg, key, w.book.running[key], kept, now);
      CompleteShape(w.book, key, w.book.running[key], kept, now);
      OutIsNotIdle(w.book, cfg, key);
      StampsOne(w.book, w'.book, key, now);
    case OpEvict(now) => EvictStamps(w, cfg, now);
    case OpEvictAll =>
      EvictAllEmptiesIdle(w, cfg);
      SameStamps(w.book, w'.book, w'.clock);
    case OpFinishEvict(key, now) =>
      FinishEvictKeeps(w.book, cfg, key, now);
      FinishEvictIdle(w.book, key, now);
      OutIsNotIdle(w.book, cfg, key);
      StampsOne(w.book, w'.book, key, now);
  }

  lemma AdmitIdle<K(!new), P, S>(b: Book<K, P, S>, cfg: Config, key: K, item: Item<P>)
    requires Inv(b, cfg) && item.cls < |b.ready|
    requires key in b.slots && b.slots[key].presence.Idle? ==> b.slots[key].queue == []
    ensures forall k :: k in Admit(b, key, item).idle ==> k in b.idle && k != key
  {
    hide InvHeld, Without;
    IdleKnown(b, cfg);
    IdleDistinct(b, cfg);
    WithoutMembers(b.idle, key);
  }

  lemma {:induction false} EvictAllEmptiesIdle<K(!new), P, S>(w: World<K, P, S>, cfg: Config)
    requires Inv(w.book, cfg) && IdleListed(w.book)
    ensures EvictAllW(w).book.idle == []
    decreases |w.book.idle|
  {
    hide Release, InvHeld;
    if w.book.idle != [] {
      ReleaseOldestKeeps(w.book, cfg);
      ReleaseShortens(w.book, w.book.idle[0]);
      InvDrainable(ReleaseOldest(w.book).0, cfg, {});
      EvictAllEmptiesIdle(ReleaseOldestW(w), cfg);
    }
  }

  lemma FinishEvictIdle<K(!new), P, S>(b: Book<K, P, S>, key: K, now: nat)
    requires key in b.slots && (b.slots[key].queue != [] ==> b.slots[key].queue[0].cls < |b.ready|)
    ensures Touches(b, FinishEvict(b, key, now), key) && FinishEvict(b, key, now).idle == b.idle
  {
    FinishEvictShape(b, key, now);
  }

  /** When a key has been idle without a break since the operation at `m`. */
  ghost predicate IdleFrom<K(!new), P, S>(ws: seq<World<K, P, S>>, k: K, m: nat, n: nat) {
    && 0 < m <= n < |ws| && k !in ws[m - 1].book.idle
    && forall j :: m <= j <= n ==> k in ws[j].book.idle
  }

  /** Over every run, an idle key's stamp is the clock at the moment it went idle. */
  lemma {:induction false} IdleSinceIsTheMoment<K(!new), P, S>(cfg: Config, ws: seq<World<K, P, S>>,
                                                              ops: seq<Op<K, P, S>>, n: nat, k: K) returns (m: nat)
    requires Run(cfg, ws, ops) && ws[0] == Begin(cfg) && n < |ws| && k in ws[n].book.idle
    ensures IdleFrom(ws, k, m, n) && k in ws[n].book.slots && ws[n].book.slots[k].idleSince == ws[m].clock
    decreases n
  {
    hide InvHeld, Account, Stamped, Step, Allowed;
    RunShape(cfg, ws, ops);
    BeginOk<K, P, S>(cfg);
    RunKeeps(cfg, ws, ops, n);
    m := n;
    if n > 0 {
      RunKeeps(cfg, ws, ops, n - 1);
      StepStamps(ws[n - 1], cfg, ops[n - 1]);
      if k in ws[n - 1].book.idle { m := IdleSinceIsTheMoment(cfg, ws, ops, n - 1, k); }
    }
  }
}
