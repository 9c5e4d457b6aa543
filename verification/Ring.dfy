/** Positions of the multi-producer ring: a lap in the high part of a word and a
    slot index in the low part, for capacities that need not be powers of two.
    Words are unbounded, so positions never wrap. */
module RingPositions {
  /** The smallest power of two above the capacity. */
  function OneLap(capacity: nat): (lap: nat)
    ensures lap > capacity
  {
    DoubleUntil(1, capacity + 1)
  }

  function DoubleUntil(p: nat, bound: nat): (r: nat)
    requires p > 0
    ensures r >= bound && r >= p
    decreases bound - p
  {
    if p >= bound then p else DoubleUntil(2 * p, bound)
  }

  /** `position & (one_lap - 1)`. */
  function Index(position: nat, lap: nat): nat
    requires lap > 0
  {
    position % lap
  }

  /** The position after `position`, wrapping the index and carrying the lap. */
  function Advance(position: nat, capacity: nat, lap: nat): nat
    requires lap > 0
  {
    if Index(position, lap) + 1 < capacity then position + 1
    else position - position % lap + lap
  }

  /** The word for the `n`th position ever claimed. */
  function Encode(n: nat, capacity: nat, lap: nat): nat
    requires capacity > 0
  {
    n / capacity * lap + n % capacity
  }

  lemma Scale(a: nat, b: nat, w: nat)
    requires a <= b
    ensures 0 <= a * w <= b * w
    ensures (a + 1) * w == a * w + w
    ensures a < b ==> a * w + w <= b * w
  {
  }

  lemma SplitUnique(q: nat, r: nat, q': nat, r': nat, w: nat)
    requires r < w && r' < w && q * w + r == q' * w + r'
    ensures q == q' && r == r'
  {
    if q < q' { Scale(q, q', w); }
    if q' < q { Scale(q', q, w); }
  }

  lemma Divide(n: nat, q: nat, r: nat, w: nat)
    requires r < w && n == q * w + r
    ensures n / w == q && n % w == r
  {
    assert n == n / w * w + n % w;
    SplitUnique(n / w, n % w, q, r, w);
  }

  lemma EncodeIndex(n: nat, capacity: nat, lap: nat)
    requires 0 < capacity < lap
    ensures Index(Encode(n, capacity, lap), lap) == n % capacity
    ensures Encode(n, capacity, lap) / lap == n / capacity
  {
    Scale(0, n / capacity, lap);
    Divide(Encode(n, capacity, lap), n / capacity, n % capacity, lap);
  }

  lemma DivModNext(n: nat, capacity: nat)
    requires capacity > 0
    ensures n % capacity + 1 < capacity ==>
              (n + 1) / capacity == n / capacity && (n + 1) % capacity == n % capacity + 1
    ensures n % capacity + 1 == capacity ==>
              (n + 1) / capacity == n / capacity + 1 && (n + 1) % capacity == 0
    ensures (n + capacity) / capacity == n / capacity + 1 && (n + capacity) % capacity == n % capacity
  {
    var q, r := n / capacity, n % capacity;
    assert n == q * capacity + r;
    Scale(q, q, capacity);
    if r + 1 < capacity {
      Divide(n + 1, q, r + 1, capacity);
    } else {
      Divide(n + 1, q + 1, 0, capacity);
    }
    Divide(n + capacity, q + 1, r, capacity);
  }

  /** Advancing a word is counting one position up, at every index. */
  lemma AdvanceCounts(n: nat, capacity: nat, lap: nat)
    requires 0 < capacity < lap
    ensures Advance(Encode(n, capacity, lap), capacity, lap) == Encode(n + 1, capacity, lap)
  {
    EncodeIndex(n, capacity, lap);
    DivModNext(n, capacity);
    Scale(n / capacity, n / capacity, lap);
  }

  /** A lap further on is the same slot's next position. */
  lemma NextLap(n: nat, capacity: nat, lap: nat)
    requires capacity > 0
    ensures Encode(n, capacity, lap) + lap == Encode(n + capacity, capacity, lap)
  {
    DivModNext(n, capacity);
    Scale(n / capacity, n / capacity, lap);
  }

  lemma EncodeInjective(m: nat, n: nat, capacity: nat, lap: nat)
    requires 0 < capacity < lap && Encode(m, capacity, lap) == Encode(n, capacity, lap)
    ensures m == n
  {
    SplitUnique(m / capacity, m % capacity, n / capacity, n % capacity, lap);
    assert m == m / capacity * capacity + m % capacity;
    assert n == n / capacity * capacity + n % capacity;
  }

  lemma NotOffByOne(q: nat, q': nat, r: nat, w: nat)
    requires r + 1 < w
    ensures q * w + r + 1 != q' * w + r
    ensures q * w + r + w != q' * w + r + 1
  {
    if q * w + r + 1 == q' * w + r { SplitUnique(q, r + 1, q', r, w); }
    if q * w + r + w == q' * w + r + 1 {
      Scale(q, q, w);
      SplitUnique(q + 1, r, q', r + 1, w);
    }
  }

  /** In one slot a free stamp is never a published one, in any lap. */
  lemma FreeIsNotPublished(m: nat, n: nat, capacity: nat, lap: nat)
    requires 0 < capacity < lap && m % capacity == n % capacity
    ensures Encode(m, capacity, lap) + 1 != Encode(n, capacity, lap)
    ensures Encode(m, capacity, lap) + lap != Encode(n, capacity, lap) + 1
  {
    NotOffByOne(m / capacity, n / capacity, n % capacity, lap);
  }

  /** Distinct positions less than a lap apart use distinct slots. */
  lemma WindowSlots(m: nat, n: nat, capacity: nat)
    requires capacity > 0 && m <= n < m + capacity && m % capacity == n % capacity
    ensures m == n
  {
    var k := n / capacity - m / capacity;
    assert n - m == k * capacity by {
      assert n == n / capacity * capacity + n % capacity;
      assert m == m / capacity * capacity + m % capacity;
      assert (n / capacity - m / capacity) * capacity == n / capacity * capacity - m / capacity * capacity;
    }
    if k >= 1 { Scale(1, k, capacity); }
    if k <= -1 { Scale(1, -k, capacity); assert (-k) * capacity == -(k * capacity); }
  }

  /** The position of the window starting at `start` that uses a given slot. */
  lemma WindowCovers(start: nat, slot: nat, capacity: nat) returns (n: nat)
    requires slot < capacity
    ensures start <= n < start + capacity && n % capacity == slot
  {
    var r := start % capacity;
    var q := start / capacity;
    assert start == q * capacity + r;
    Scale(q, q, capacity);
    if slot >= r {
      n := start + (slot - r);
      Divide(n, q, slot, capacity);
    } else {
      n := start + (slot + capacity - r);
      Divide(n, q + 1, slot, capacity);
    }
  }
}

/** The ring protocol as an interleaving of its atomic steps: any number of
    producers, one consumer, sequentially consistent. A compare-exchange may fail
    spuriously. */
module RingProtocol {
  import opened Options
  import opened RingPositions

  /** Where a producer thread is in `try_push`. `since` is the instant its call
      began, `at` the abstract position its tail word encodes. */
  datatype Producer<V> =
    | Idle
    | HasTail(value: V, since: nat, tail: nat, at: nat)
    | HasStamp(value: V, since: nat, tail: nat, at: nat, stamp: nat)
    | Claimed(value: V, since: nat, tail: nat, at: nat)
    | Written(value: V, since: nat, tail: nat, at: nat)
    | Pushed(value: V, since: nat, at: nat)
    | Refused(value: V, since: nat)

  /** Where the consumer is in `pop`. */
  datatype Consumer<V> = Away | Entered | Taken(value: V)

  datatype State<V> = State(
    capacity: nat,
    tail: nat,
    stamps: seq<nat>,
    cells: seq<Option<V>>,
    head: nat,
    producers: map<nat, Producer<V>>,
    consumer: Consumer<V>,
    // History: values in claim order, values popped, positions released, which
    // thread is filling which position, and at each instant whether exactly
    // `capacity` positions were claimed and not yet released.
    claims: seq<V>,
    popped: seq<V>,
    released: nat,
    holders: map<nat, nat>,
    fullAt: seq<bool>)

  datatype Step<V> =
    | Begin(thread: nat, value: V)
    | LoadStamp(thread: nat)
    | Exchange(thread: nat)
    | ExchangeFails(thread: nat)
    | ReportFull(thread: nat)
    | ReloadTail(thread: nat)
    | WriteCell(thread: nat)
    | Publish(thread: nat)
    | Leave(thread: nat)
    | PopLook
    | PopTake
    | PopRelease

  function Lap<V>(s: State<V>): nat { OneLap(s.capacity) }

  function Pc<V>(s: State<V>, t: nat): Producer<V> {
    if t in s.producers then s.producers[t] else Idle
  }

  function Init<V>(capacity: nat): State<V> {
    State(capacity, 0, seq(capacity, i requires 0 <= i < capacity => i), seq(capacity, _ => None), 0,
          map[], Away, [], [], 0, map[], [capacity == 0])
  }

  /** Exactly `capacity` positions are claimed and not released. */
  predicate Full<V>(s: State<V>) {
    |s.claims| == s.released + s.capacity
  }

  // ---- Invariant ----------------------------------------------------------------

  predicate Holds<V>(p: Producer<V>) { p.Claimed? || p.Written? }

  /** What the slot of position `n` holds, for `n` in the consumer's window. */
  ghost predicate SlotOk<V>(s: State<V>, n: nat)
    requires s.capacity > 0 && |s.stamps| == |s.cells| == s.capacity
  {
    var stamp, cell := s.stamps[n % s.capacity], s.cells[n % s.capacity];
    if n >= |s.claims| then
      stamp == Encode(n, s.capacity, Lap(s)) && cell == None
    else if n in s.holders then
      && stamp == Encode(n, s.capacity, Lap(s))
      && cell == if Pc(s, s.holders[n]).Claimed? then None else Some(s.claims[n])
    else
      && stamp == Encode(n, s.capacity, Lap(s)) + 1
      && cell == if n == s.released && s.consumer.Taken? then None else Some(s.claims[n])
  }

  /** Fullness was observed at some instant from `since` on. */
  ghost predicate SawFull<V>(s: State<V>, since: nat) {
    exists k :: since <= k < |s.fullAt| && s.fullAt[k]
  }

  ghost predicate ProducerOk<V>(s: State<V>, t: nat)
    requires s.capacity > 0
  {
    match Pc(s, t)
    case Idle => true
    case HasTail(_, since, tail, at) =>
      since < |s.fullAt| && at <= |s.claims| && tail == Encode(at, s.capacity, Lap(s))
    case HasStamp(_, since, tail, at, stamp) =>
      && since < |s.fullAt| && at <= |s.claims| && tail == Encode(at, s.capacity, Lap(s))
      && (stamp + Lap(s) == tail + 1 ==> SawFull(s, since))
      && (stamp != tail && |s.claims| == at ==> SawFull(s, since))
      && (stamp == tail && |s.claims| == at ==> at < s.released + s.capacity)
    case Claimed(value, since, tail, at) =>
      && tail == Encode(at, s.capacity, Lap(s))
      && at in s.holders && s.holders[at] == t && at < |s.claims| && s.claims[at] == value
    case Written(value, since, tail, at) =>
      && tail == Encode(at, s.capacity, Lap(s))
      && at in s.holders && s.holders[at] == t && at < |s.claims| && s.claims[at] == value
    case Pushed(value, since, at) => at < |s.claims| && s.claims[at] == value
    case Refused(_, since) => SawFull(s, since)
  }

  ghost predicate Shape<V>(s: State<V>) {
    && s.capacity > 0
    && |s.stamps| == |s.cells| == s.capacity
    && s.tail == Encode(|s.claims|, s.capacity, Lap(s))
    && s.head == Encode(s.released, s.capacity, Lap(s))
    && s.released <= |s.claims| <= s.released + s.capacity
    && |s.fullAt| > 0 && s.fullAt[|s.fullAt| - 1] == Full(s)
    && (!s.consumer.Away? ==> s.released < |s.claims| && s.released !in s.holders)
    && (s.consumer.Taken? ==> s.consumer.value == s.claims[s.released])
    && s.popped == s.claims[..if s.consumer.Taken? then s.released + 1 else s.released]
  }

  ghost predicate HoldersOk<V>(s: State<V>) {
    forall n :: n in s.holders ==>
      s.released <= n < |s.claims| && Holds(Pc(s, s.holders[n])) && Pc(s, s.holders[n]).at == n
  }

  ghost predicate Inv<V>(s: State<V>) {
    && Shape(s)
    && HoldersOk(s)
    && (forall n :: s.released <= n < s.released + s.capacity ==> SlotOk(s, n))
    && (forall t :: ProducerOk(s, t))
  }

  // ---- Steps ----------------------------------------------------------------------

  /** Whether the stamp says the slot still holds the previous lap's value. */
  predicate PreviousLap<V>(s: State<V>, p: Producer<V>)
    requires p.HasStamp?
  {
    p.stamp + Lap(s) == p.tail + 1
  }

  predicate Enabled<V>(s: State<V>, step: Step<V>) {
    match step
    case Begin(t, _) => Pc(s, t).Idle?
    case LoadStamp(t) => Pc(s, t).HasTail?
    case Exchange(t) => Pc(s, t).HasStamp? && Pc(s, t).stamp == Pc(s, t).tail && s.tail == Pc(s, t).tail
    case ExchangeFails(t) => Pc(s, t).HasStamp? && Pc(s, t).stamp == Pc(s, t).tail
    case ReportFull(t) => Pc(s, t).HasStamp? && Pc(s, t).stamp != Pc(s, t).tail && PreviousLap(s, Pc(s, t))
    case ReloadTail(t) => Pc(s, t).HasStamp? && Pc(s, t).stamp != Pc(s, t).tail && !PreviousLap(s, Pc(s, t))
    case WriteCell(t) => Pc(s, t).Claimed?
    case Publish(t) => Pc(s, t).Written?
    case Leave(t) => Pc(s, t).Pushed? || Pc(s, t).Refused?
    case PopLook => s.consumer.Away?
    case PopTake => s.consumer.Entered?
    case PopRelease => s.consumer.Taken?
  }

  function Go<V>(s: State<V>, t: nat, p: Producer<V>): State<V> {
    s.(producers := s.producers[t := p])
  }

  /** Slot accesses go through these; `TailInRange` and `WordsInRange` show that
      the index a reachable word names is always in range, and `EnteredFindsValue`
      that the consumer never finds a published cell empty. */
  function Get<X>(xs: seq<X>, i: nat, default: X): X {
    if i < |xs| then xs[i] else default
  }

  function Put<X>(xs: seq<X>, i: nat, x: X): seq<X> {
    if i < |xs| then xs[i := x] else xs
  }

  /** One atomic step, as the code takes it. */
  function Act<V>(s: State<V>, step: Step<V>): State<V>
    requires Enabled(s, step)
  {
    match step
    case Begin(t, value) =>
      Go(s, t, HasTail(value, |s.fullAt|, s.tail, |s.claims|))
    case LoadStamp(t) =>
      var p := Pc(s, t);
      Go(s, t, HasStamp(p.value, p.since, p.tail, p.at, Get(s.stamps, Index(p.tail, Lap(s)), 0)))
    case Exchange(t) =>
      var p := Pc(s, t);
      Go(s, t, Claimed(p.value, p.since, p.tail, |s.claims|))
        .(tail := Advance(s.tail, s.capacity, Lap(s)),
          claims := s.claims + [p.value],
          holders := s.holders[|s.claims| := t])
    case ExchangeFails(t) =>
      var p := Pc(s, t);
      Go(s, t, HasTail(p.value, p.since, s.tail, |s.claims|))
    case ReportFull(t) =>
      Go(s, t, Refused(Pc(s, t).value, Pc(s, t).since))
    case ReloadTail(t) =>
      var p := Pc(s, t);
      if s.tail == p.tail then Go(s, t, Refused(p.value, p.since))
      else Go(s, t, HasTail(p.value, p.since, s.tail, |s.claims|))
    case WriteCell(t) =>
      var p := Pc(s, t);
      Go(s, t, Written(p.value, p.since, p.tail, p.at))
        .(cells := Put(s.cells, Index(p.tail, Lap(s)), Some(p.value)))
    case Publish(t) =>
      var p := Pc(s, t);
      Go(s, t, Pushed(p.value, p.since, p.at))
        .(stamps := Put(s.stamps, Index(p.tail, Lap(s)), p.tail + 1),
          holders := s.holders - {p.at})
    case Leave(t) =>
      Go(s, t, Idle)
    case PopLook =>
      if Get(s.stamps, Index(s.head, Lap(s)), 0) == s.head + 1 then s.(consumer := Entered) else s
    case PopTake =>
      match Get(s.cells, Index(s.head, Lap(s)), None) {
        case None => s
        case Some(value) =>
          s.(consumer := Taken(value), cells := Put(s.cells, Index(s.head, Lap(s)), None),
             popped := s.popped + [value])
      }
    case PopRelease =>
      s.(consumer := Away,
         stamps := Put(s.stamps, Index(s.head, Lap(s)), s.head + Lap(s)),
         head := Advance(s.head, s.capacity, Lap(s)),
         released := s.released + 1)
  }

  /** A step, with the instant it leads to entered in the history. */
  function Next<V>(s: State<V>, step: Step<V>): State<V>
    requires Enabled(s, step)
  {
    var s' := Act(s, step);
    s'.(fullAt := s'.fullAt + [Full(s')])
  }

  lemma WordsInRange<V>(s: State<V>)
    requires Shape(s)
    ensures Index(s.head, Lap(s)) == s.released % s.capacity < s.capacity
  {
    hide Encode;
    EncodeIndex(s.released, s.capacity, Lap(s));
  }

  lemma TailInRange<V>(s: State<V>, t: nat)
    requires Inv(s) && !Pc(s, t).Idle? && !Pc(s, t).Pushed? && !Pc(s, t).Refused?
    ensures Index(Pc(s, t).tail, Lap(s)) == Pc(s, t).at % s.capacity < s.capacity
  {
    hide Encode;
    assert ProducerOk(s, t);
    EncodeIndex(Pc(s, t).at, s.capacity, Lap(s));
  }

  // ---- Every step keeps the invariant --------------------------------------------

  /** Appending an instant to the history forgets nothing. */
  lemma Remember<V>(s: State<V>, s': State<V>, since: nat)
    requires |s.fullAt| <= |s'.fullAt| && s'.fullAt[..|s.fullAt|] == s.fullAt
    ensures SawFull(s, since) ==> SawFull(s', since)
  {
  }

  /** A thread whose call is untouched by the step keeps what it knew. */
  lemma BystanderOk<V>(s: State<V>, s': State<V>, t: nat)
    requires s.capacity > 0 && s'.capacity == s.capacity && ProducerOk(s, t) && Pc(s', t) == Pc(s, t)
    requires |s.fullAt| <= |s'.fullAt| && s'.fullAt[..|s.fullAt|] == s.fullAt
    requires s.claims <= s'.claims && s.released <= s'.released
    requires Holds(Pc(s, t)) ==> Pc(s, t).at in s'.holders && s'.holders[Pc(s, t).at] == t
    ensures ProducerOk(s', t)
  {
  }

  /** The slot a stamp was read from settles what the stamp can mean: equal to
      the tail word only when the position is free, a lap behind only when the
      ring is full, and anything else at an unmoved tail only when it is full. */
  lemma StampMeaning<V>(s: State<V>, at: nat)
    requires Inv(s) && at <= |s.claims|
    ensures var word := Encode(at, s.capacity, Lap(s));
            var stamp := s.stamps[at % s.capacity];
            && (stamp + Lap(s) == word + 1 ==> Full(s))
            && (stamp != word && |s.claims| == at ==> Full(s))
            && (stamp == word && |s.claims| == at ==> at < s.released + s.capacity)
  {
    hide Encode, OneLap;
    var c, lap := s.capacity, Lap(s);
    var n := WindowCovers(s.released, at % c, c);
    assert SlotOk(s, n);
    var stamp := s.stamps[at % c];
    FreeIsNotPublished(n, at, c, lap);
    NextLap(n, c, lap);
    if stamp + lap == Encode(at, c, lap) + 1 {
      EncodeInjective(n + c, at, c, lap);
    }
    if |s.claims| == at {
      if at < s.released + c {
        WindowBoth(s.released, at, n, c);
      } else if stamp == Encode(at, c, lap) {
        if stamp == Encode(n, c, lap) { EncodeInjective(n, at, c, lap); }
      }
    }
  }

  lemma WindowBoth(start: nat, m: nat, n: nat, capacity: nat)
    requires capacity > 0 && start <= m < start + capacity && start <= n < start + capacity
    requires m % capacity == n % capacity
    ensures m == n
  {
    if m <= n { WindowSlots(m, n, capacity); } else { WindowSlots(n, m, capacity); }
  }

  ghost predicate SlotsOk<V>(s: State<V>)
    requires s.capacity > 0 && |s.stamps| == |s.cells| == s.capacity
  {
    forall n :: s.released <= n < s.released + s.capacity ==> SlotOk(s, n)
  }

  /** The instant the step leads to, appended to the history. */
  ghost predicate Recorded<V>(s: State<V>, s': State<V>) {
    s'.fullAt == s.fullAt + [Full(s')]
  }

  lemma OthersKeep<V>(s: State<V>, s': State<V>, t: nat)
    requires Inv(s) && s'.capacity == s.capacity && Recorded(s, s')
    requires forall u :: u != t ==> Pc(s', u) == Pc(s, u)
    requires s.claims <= s'.claims && s.released <= s'.released
    requires forall n :: n in s.holders && s.holders[n] != t ==> n in s'.holders && s'.holders[n] == s.holders[n]
    requires ProducerOk(s', t)
    ensures forall u :: ProducerOk(s', u)
  {
    forall u ensures ProducerOk(s', u) {
      if u != t {
        assert ProducerOk(s, u);
        BystanderOk(s, s', u);
      }
    }
  }

  /** A step that only moves a thread through its own call. */
  lemma LocalStepKeeps<V>(s: State<V>, s': State<V>, t: nat, p: Producer<V>)
    requires Inv(s) && !Holds(Pc(s, t)) && !Holds(p)
    requires s' == Go(s, t, p).(fullAt := s.fullAt + [Full(s)])
    requires ProducerOk(s', t)
    ensures Inv(s')
  {
    hide Encode, OneLap, ProducerOk, SlotOk;
    forall n | s.released <= n < s.released + s.capacity ensures SlotOk(s', n) {
      assert SlotOk(s, n);
      SlotSame(s, s', n);
    }
    OthersKeep(s, s', t);
  }

  lemma SlotSame<V>(s: State<V>, s': State<V>, n: nat)
    requires s.capacity > 0 && |s.stamps| == |s.cells| == s.capacity && SlotOk(s, n) && s.released <= n
    requires s'.capacity == s.capacity && |s'.stamps| == |s'.cells| == s.capacity
    requires s'.stamps[n % s.capacity] == s.stamps[n % s.capacity]
    requires s'.cells[n % s.capacity] == s.cells[n % s.capacity]
    requires s.claims <= s'.claims && (n < |s'.claims| ==> n < |s.claims|)
    requires n in s.holders <==> n in s'.holders
    requires n in s.holders ==> Pc(s', s'.holders[n]).Claimed? == Pc(s, s.holders[n]).Claimed?
    requires (n == s.released && s.consumer.Taken?) == (n == s'.released && s'.consumer.Taken?)
    ensures SlotOk(s', n)
  {
  }

  lemma BeginKeeps<V>(s: State<V>, t: nat, value: V)
    requires Inv(s) && Enabled(s, Begin(t, value))
    ensures Inv(Next(s, Begin(t, value)))
  {
    hide Encode, OneLap, SlotOk;
    var s' := Next(s, Begin(t, value));
    LocalStepKeeps(s, s', t, Pc(s', t));
  }

  lemma LoadKeeps<V>(s: State<V>, t: nat)
    requires Inv(s) && Enabled(s, LoadStamp(t))
    ensures Inv(Next(s, LoadStamp(t)))
  {
    hide Encode, OneLap, SlotOk;
    var s' := Next(s, LoadStamp(t));
    assert ProducerOk(s, t);
    TailInRange(s, t);
    StampMeaning(s, Pc(s, t).at);
    if Full(s) { assert s'.fullAt[|s.fullAt| - 1]; }
    LocalStepKeeps(s, s', t, Pc(s', t));
  }

  lemma LeaveKeeps<V>(s: State<V>, t: nat)
    requires Inv(s) && Enabled(s, Leave(t))
    ensures Inv(Next(s, Leave(t)))
  {
    hide Encode, OneLap, SlotOk;
    LocalStepKeeps(s, Next(s, Leave(t)), t, Idle);
  }

  /** The steps that leave a read stamp behind without claiming a position. */
  lemma RetryOrRefuseKeeps<V>(s: State<V>, t: nat, step: Step<V>)
    requires Inv(s) && Enabled(s, step) && Pc(s, t).HasStamp?
    requires step in {ExchangeFails(t), ReportFull(t), ReloadTail(t)}
    ensures Inv(Next(s, step))
  {
    hide Encode, OneLap, SlotOk;
    var s', p := Next(s, step), Pc(s, t);
    assert ProducerOk(s, t);
    Remember(s, s', p.since);
    if s.tail == p.tail { EncodeInjective(p.at, |s.claims|, s.capacity, Lap(s)); }
    LocalStepKeeps(s, s', t, Pc(s', t));
  }

  lemma ExchangeKeeps<V>(s: State<V>, t: nat)
    requires Inv(s) && Enabled(s, Exchange(t))
    ensures Inv(Next(s, Exchange(t)))
  {
    hide Encode, OneLap, SlotOk;
    var s' := Next(s, Exchange(t));
    var at := |s.claims|;
    assert ProducerOk(s, t);
    EncodeInjective(Pc(s, t).at, at, s.capacity, Lap(s));
    AdvanceCounts(at, s.capacity, Lap(s));
    forall n | s.released <= n < s.released + s.capacity ensures SlotOk(s', n) {
      assert SlotOk(s, n);
      if n == at { ClaimedSlot(s, s', at, t); } else { SlotSame(s, s', n); }
    }
    OthersKeep(s, s', t);
  }

  lemma ClaimedSlot<V>(s: State<V>, s': State<V>, at: nat, t: nat)
    requires s.capacity > 0 && |s.stamps| == |s.cells| == s.capacity && SlotOk(s, at) && at == |s.claims|
    requires s'.capacity == s.capacity && s'.stamps == s.stamps && s'.cells == s.cells
    requires |s'.claims| == at + 1 && at in s'.holders && Pc(s', s'.holders[at]).Claimed?
    ensures SlotOk(s', at)
  {
  }

  lemma WriteKeeps<V>(s: State<V>, t: nat)
    requires Inv(s) && Enabled(s, WriteCell(t))
    ensures Inv(Next(s, WriteCell(t)))
  {
    hide Encode, OneLap;
    var s' := Next(s, WriteCell(t));
    assert ProducerOk(s, t);
    var at := Pc(s, t).at;
    TailInRange(s, t);
    assert SlotOk(s, at);
    forall n | s.released <= n < s.released + s.capacity ensures SlotOk(s', n) {
      assert SlotOk(s, n);
      if n != at {
        if n % s.capacity == at % s.capacity { WindowBoth(s.released, n, at, s.capacity); }
        SlotSame(s, s', n);
      }
    }
    OthersKeep(s, s', t);
  }

  lemma PublishKeeps<V>(s: State<V>, t: nat)
    requires Inv(s) && Enabled(s, Publish(t))
    ensures Inv(Next(s, Publish(t)))
  {
    hide Encode, OneLap;
    var s' := Next(s, Publish(t));
    assert ProducerOk(s, t);
    var at := Pc(s, t).at;
    TailInRange(s, t);
    assert SlotOk(s, at);
    forall n | s.released <= n < s.released + s.capacity ensures SlotOk(s', n) {
      assert SlotOk(s, n);
      if n != at {
        if n % s.capacity == at % s.capacity { WindowBoth(s.released, n, at, s.capacity); }
        SlotSame(s, s', n);
      }
    }
    OthersKeep(s, s', t);
  }

  /** No thread moved. */
  lemma ThreadsKeep<V>(s: State<V>, s': State<V>)
    requires Inv(s) && s'.capacity == s.capacity && Recorded(s, s')
    requires s'.producers == s.producers && s'.holders == s.holders
    requires s.claims == s'.claims && s.released <= s'.released
    ensures forall u :: ProducerOk(s', u)
  {
    forall u ensures ProducerOk(s', u) {
      assert ProducerOk(s, u);
      BystanderOk(s, s', u);
    }
  }

  lemma LookKeeps<V>(s: State<V>)
    requires Inv(s) && Enabled(s, PopLook)
    ensures Inv(Next(s, PopLook))
  {
    hide Encode, OneLap;
    var s' := Next(s, PopLook);
    WordsInRange(s);
    assert SlotOk(s, s.released);
    forall n | s.released <= n < s.released + s.capacity ensures SlotOk(s', n) {
      assert SlotOk(s, n);
      SlotSame(s, s', n);
    }
    ThreadsKeep(s, s');
  }

  /** A consumer that has seen the head published finds its value in the cell, and
      takes that one. */
  lemma EnteredFindsValue<V>(s: State<V>)
    requires Inv(s) && s.consumer.Entered?
    ensures s.released < |s.claims| && Get(s.cells, Index(s.head, Lap(s)), None) == Some(s.claims[s.released])
    ensures Next(s, PopTake).consumer == Taken(s.claims[s.released])
    ensures Next(s, PopTake).popped == s.popped + [s.claims[s.released]]
  {
    hide Encode, OneLap;
    WordsInRange(s);
    assert SlotOk(s, s.released);
  }

  lemma TakeKeeps<V>(s: State<V>)
    requires Inv(s) && Enabled(s, PopTake)
    ensures Inv(Next(s, PopTake))
  {
    hide Encode, OneLap;
    var s' := Next(s, PopTake);
    WordsInRange(s);
    assert SlotOk(s, s.released);
    forall n | s.released <= n < s.released + s.capacity ensures SlotOk(s', n) {
      assert SlotOk(s, n);
      if n != s.released {
        if n % s.capacity == s.released % s.capacity { WindowBoth(s.released, n, s.released, s.capacity); }
        SlotSame(s, s', n);
      }
    }
    ThreadsKeep(s, s');
  }

  lemma ReleaseKeeps<V>(s: State<V>)
    requires Inv(s) && Enabled(s, PopRelease)
    ensures Inv(Next(s, PopRelease))
  {
    hide Encode, OneLap;
    var s' := Next(s, PopRelease);
    var h, c := s.released, s.capacity;
    WordsInRange(s);
    assert SlotOk(s, h);
    AdvanceCounts(h, c, Lap(s));
    NextLap(h, c, Lap(s));
    DivModNext(h, c);
    forall n | h + 1 <= n < h + 1 + c ensures SlotOk(s', n) {
      if n < h + c {
        assert SlotOk(s, n);
        if n % c == h % c { WindowBoth(h, n, h, c); }
        SlotSame(s, s', n);
      }
    }
    ThreadsKeep(s, s');
  }

  /** Every atomic step of every thread keeps the ring's invariant. */
  lemma StepKeeps<V>(s: State<V>, step: Step<V>)
    requires Inv(s) && Enabled(s, step)
    ensures Inv(Next(s, step))
  {
    hide Inv, Next;
    match step
    case Begin(t, value) => BeginKeeps(s, t, value);
    case LoadStamp(t) => LoadKeeps(s, t);
    case Leave(t) => LeaveKeeps(s, t);
    case ExchangeFails(t) => RetryOrRefuseKeeps(s, t, step);
    case ReportFull(t) => RetryOrRefuseKeeps(s, t, step);
    case ReloadTail(t) => RetryOrRefuseKeeps(s, t, step);
    case Exchange(t) => ExchangeKeeps(s, t);
    case WriteCell(t) => WriteKeeps(s, t);
    case Publish(t) => PublishKeeps(s, t);
    case PopLook => LookKeeps(s);
    case PopTake => TakeKeeps(s);
    case PopRelease => ReleaseKeeps(s);
  }

  // ---- Runs -------------------------------------------------------------------------

  /** A run of the ring from empty, whatever the threads do and in any order. */
  ghost predicate Run<V>(capacity: nat, states: seq<State<V>>, steps: seq<Step<V>>) {
    && capacity > 0
    && |states| == |steps| + 1
    && states[0] == Init(capacity)
    && (forall i :: 0 <= i < |steps| ==> Enabled(states[i], steps[i]))
    && (forall i :: 0 <= i < |steps| ==> states[i + 1] == Next(states[i], steps[i]))
  }

  lemma InitOk<V>(capacity: nat)
    requires capacity > 0
    ensures Inv(Init<V>(capacity))
  {
    var s := Init<V>(capacity);
    Divide(0, 0, 0, capacity);
    forall n: nat | n < capacity ensures SlotOk(s, n) {
      Divide(n, 0, n, capacity);
    }
  }

  /** Every state of every run satisfies the invariant. */
  lemma {:induction false} Reachable<V>(capacity: nat, states: seq<State<V>>, steps: seq<Step<V>>, k: nat)
    requires Run(capacity, states, steps) && k < |states|
    ensures Inv(states[k]) && states[k].capacity == capacity
    ensures |states[k].fullAt| == k + 1 && forall j :: 0 <= j <= k ==> states[k].fullAt[j] == Full(states[j])
  {
    hide Inv, Enabled, Next;
    if k == 0 {
      InitOk<V>(capacity);
    } else {
      Reachable(capacity, states, steps, k - 1);
      StepKeeps(states[k - 1], steps[k - 1]);
      InstantRecorded(states[k - 1], steps[k - 1]);
    }
  }

  lemma InstantRecorded<V>(s: State<V>, step: Step<V>)
    requires Enabled(s, step)
    ensures Next(s, step).fullAt == s.fullAt + [Full(Next(s, step))] && Next(s, step).capacity == s.capacity
  {
  }

  /** Whether a thread is inside the value cell of some slot, and of which. */
  ghost predicate ProducerInside<V>(s: State<V>, t: nat, slot: nat) {
    Holds(Pc(s, t)) && Index(Pc(s, t).tail, Lap(s)) == slot
  }

  ghost predicate ConsumerInside<V>(s: State<V>, slot: nat) {
    !s.consumer.Away? && Index(s.head, Lap(s)) == slot
  }

  /** At no instant of any run are two threads in the same value cell, and the
      cell a producer has claimed is empty until it writes it. */
  lemma CellsAreExclusive<V>(capacity: nat, states: seq<State<V>>, steps: seq<Step<V>>, k: nat,
                             t: nat, u: nat, slot: nat)
    requires Run(capacity, states, steps) && k < |states|
    requires ProducerInside(states[k], t, slot)
    ensures ProducerInside(states[k], u, slot) ==> t == u
    ensures !ConsumerInside(states[k], slot)
    ensures slot < capacity == |states[k].cells|
    ensures Pc(states[k], t).Claimed? ==> states[k].cells[slot] == None
  {
    hide Encode, OneLap, Enabled, Next;
    var s := states[k];
    Reachable(capacity, states, steps, k);
    assert ProducerOk(s, t);
    TailInRange(s, t);
    WordsInRange(s);
    var at := Pc(s, t).at;
    assert SlotOk(s, at);
    if ProducerInside(s, u, slot) {
      assert ProducerOk(s, u);
      TailInRange(s, u);
      WindowBoth(s.released, at, Pc(s, u).at, capacity);
    }
    if ConsumerInside(s, slot) {
      WindowBoth(s.released, at, s.released, capacity);
    }
  }

  /** The popped values are, at every instant, a prefix of the pushed values in
      the order their positions were claimed; each successful push is in that
      order at its own position. */
  lemma PoppedIsPrefix<V>(capacity: nat, states: seq<State<V>>, steps: seq<Step<V>>, k: nat)
    requires Run(capacity, states, steps) && k < |states|
    ensures states[k].popped <= states[k].claims
    ensures |states[k].claims| <= |states[k].popped| + capacity
    ensures forall t :: Pc(states[k], t).Pushed? ==>
              && Pc(states[k], t).at < |states[k].claims|
              && states[k].claims[Pc(states[k], t).at] == Pc(states[k], t).value
  {
    hide Encode, OneLap, Enabled, Next;
    var s := states[k];
    Reachable(capacity, states, steps, k);
    forall t | Pc(s, t).Pushed?
      ensures Pc(s, t).at < |s.claims| && s.claims[Pc(s, t).at] == Pc(s, t).value
    {
      assert ProducerOk(s, t);
    }
  }

  /** Claims are only ever added, so a position's value never changes. */
  lemma {:induction false} ClaimsGrow<V>(capacity: nat, states: seq<State<V>>, steps: seq<Step<V>>, j: nat, k: nat)
    requires Run(capacity, states, steps) && j <= k < |states|
    ensures states[j].claims <= states[k].claims && states[j].popped <= states[k].popped
    decreases k - j
  {
    hide Enabled, Next, Init;
    if j < k {
      ClaimsGrow(capacity, states, steps, j, k - 1);
      StepGrows(states[k - 1], steps[k - 1]);
    }
  }

  lemma StepGrows<V>(s: State<V>, step: Step<V>)
    requires Enabled(s, step)
    ensures s.claims <= Next(s, step).claims && s.popped <= Next(s, step).popped
  {
  }

  /** A refusal is honest: between the start of the call and its return there was
      an instant at which exactly `capacity` positions were claimed and not yet
      released. */
  lemma RefusedWasFull<V>(capacity: nat, states: seq<State<V>>, steps: seq<Step<V>>, k: nat, t: nat)
    requires Run(capacity, states, steps) && k < |states| && Pc(states[k], t).Refused?
    ensures exists i :: Pc(states[k], t).since <= i <= k && |states[i].claims| == states[i].released + capacity
  {
    hide Encode, OneLap, Enabled, Next;
    var s := states[k];
    Reachable(capacity, states, steps, k);
    assert ProducerOk(s, t);
    var i :| Pc(s, t).since <= i < |s.fullAt| && s.fullAt[i];
    Reachable(capacity, states, steps, i);
  }

  /** A call's recorded start is the instant its first step led to, and the call
      lasts without interruption from there. */
  lemma {:induction false} SinceIsTheStart<V>(capacity: nat, states: seq<State<V>>, steps: seq<Step<V>>, k: nat, t: nat)
    requires Run(capacity, states, steps) && k < |states| && !Pc(states[k], t).Idle?
    ensures var since := Since(Pc(states[k], t));
            && 0 < since <= k && steps[since - 1].Begin? && steps[since - 1].thread == t
            && steps[since - 1].value == Value(Pc(states[k], t))
            && forall i :: since <= i <= k ==> !Pc(states[i], t).Idle?
  {
    hide Enabled, Next, Init, Inv;
    if k == 0 {
      NobodyYet<V>(capacity, t);
    } else {
      var s, step := states[k - 1], steps[k - 1];
      Reachable(capacity, states, steps, k - 1);
      if Pc(s, t).Idle? {
        OnlyBeginStarts(s, step, t);
      } else {
        StaysInCall(s, step, t);
        SinceIsTheStart(capacity, states, steps, k - 1, t);
      }
    }
  }

  lemma NobodyYet<V>(capacity: nat, t: nat)
    ensures Pc(Init<V>(capacity), t).Idle?
  {
  }

  function Since<V>(p: Producer<V>): nat { if p.Idle? then 0 else p.since }

  function Value<V>(p: Producer<V>): V
    requires !p.Idle?
  {
    p.value
  }

  lemma OnlyBeginStarts<V>(s: State<V>, step: Step<V>, t: nat)
    requires Enabled(s, step) && Pc(s, t).Idle? && !Pc(Next(s, step), t).Idle?
    ensures step.Begin? && step.thread == t
    ensures Pc(Next(s, step), t).HasTail? && Pc(Next(s, step), t).since == |s.fullAt|
    ensures Pc(Next(s, step), t).value == step.value
  {
  }

  lemma StaysInCall<V>(s: State<V>, step: Step<V>, t: nat)
    requires Enabled(s, step) && !Pc(s, t).Idle? && !Pc(Next(s, step), t).Idle?
    ensures Since(Pc(Next(s, step), t)) == Since(Pc(s, t)) && Value(Pc(Next(s, step), t)) == Value(Pc(s, t))
  {
  }

  /** `pop` finds nothing exactly when the head position is unclaimed, or is
      claimed by a producer that has not published it yet. */
  lemma PopFindsPublished<V>(s: State<V>)
    requires Inv(s) && s.consumer.Away?
    ensures Next(s, PopLook).consumer.Entered? <==> s.released < |s.claims| && s.released !in s.holders
  {
    hide Encode, OneLap;
    WordsInRange(s);
    assert SlotOk(s, s.released);
  }
}
