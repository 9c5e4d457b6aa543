/** The bounded set of outstanding futures: slots and a free list owned by one
    thread, readiness bits set by any, and a capped harvest going round the set
    from its cursor. */
module OutstandingSet {
  import opened Options
  import opened Bits
  import opened ReadyBits
  import opened HarvestOrder
  import opened HarvestSteps

  datatype Report = Report(polled: nat, finished: nat, moreReady: bool)

  /** Slots are either occupied or on the free list, once. */
  ghost predicate StoreOk<F>(storage: seq<Option<F>>, free: seq<nat>, live: nat, capacity: nat) {
    && |storage| == capacity && live + |free| == capacity
    && (forall i :: 0 <= i < |free| ==> free[i] < capacity && storage[free[i]].None?)
    && (forall i, j :: 0 <= i < j < |free| ==> free[i] != free[j])
    && (forall i :: 0 <= i < capacity && storage[i].None? ==> i in free)
  }

  /** Where a harvest stands: the bitmap and the order of polls, the slots, and
      the cursor just past the last slot visited. */
  ghost predicate Standing<F>(run: Run, s: Shared, g: Guard, hand: set<nat>, storage: seq<Option<F>>, free: seq<nat>,
                              live: nat, cursor: nat, polls: seq<nat>, last: int, step: int) {
    && Progress(run, s, g, hand, storage, polls, last, step)
    && StoreOk(storage, free, live, run.capacity)
    && RunOk(run) && run.start + last + 1 >= 0 && cursor == Wrap(run.start + last + 1, run.capacity)
  }

  lemma RemoveKeepsStore<F>(storage: seq<Option<F>>, free: seq<nat>, live: nat, capacity: nat, index: nat)
    requires StoreOk(storage, free, live, capacity) && index < capacity && storage[index].Some?
    ensures live > 0 && StoreOk(storage[index := None], free + [index], live - 1, capacity)
  {
    var storage' := storage[index := None];
    var free' := free + [index];
    assert index !in free;
    SomeLive(storage, free, live, capacity, index);
    forall i | 0 <= i < capacity && storage'[i].None? ensures i in free' {
      if i == index { assert free'[|free|] == index; } else { assert i in free; }
    }
  }

  /** With a slot occupied, the free list is shorter than the set. */
  lemma SomeLive<F>(storage: seq<Option<F>>, free: seq<nat>, live: nat, capacity: nat, index: nat)
    requires StoreOk(storage, free, live, capacity) && index < capacity && storage[index].Some?
    ensures live > 0
  {
    MaskSize(capacity);
    assert |LowMask(capacity) - {index}| == capacity - 1;
    FreeFits(free, LowMask(capacity) - {index});
  }

  lemma {:induction false} FreeFits(free: seq<nat>, s: set<nat>)
    requires forall i, j :: 0 <= i < j < |free| ==> free[i] != free[j]
    requires forall i :: 0 <= i < |free| ==> free[i] in s
    ensures |free| <= |s|
  {
    if free != [] { FreeFits(free[1..], s - {free[0]}); }
  }

  lemma {:induction false} MaskSize(n: nat)
    ensures |LowMask(n)| == n
  {
    if n > 0 { MaskSize(n - 1); }
  }

  ghost function Occupied<F>(storage: seq<Option<F>>): set<nat> {
    set i | 0 <= i < |storage| && storage[i].Some?
  }

  ghost function Members(free: seq<nat>): (s: set<nat>)
    ensures forall i: nat :: i in s <==> i in free
  {
    if free == [] then {} else Members(free[1..]) + {free[0]}
  }

  lemma {:induction false} MembersSize(free: seq<nat>)
    requires forall i, j :: 0 <= i < j < |free| ==> free[i] != free[j]
    ensures |Members(free)| == |free|
  {
    if free != [] {
      MembersSize(free[1..]);
      assert free[0] !in free[1..];
    }
  }

  /** The live counter counts the occupied slots. */
  lemma LiveIsOccupied<F>(storage: seq<Option<F>>, free: seq<nat>, live: nat, capacity: nat)
    requires StoreOk(storage, free, live, capacity)
    ensures |Occupied(storage)| == live
  {
    MembersSize(free);
    MaskSize(capacity);
    forall i: nat ensures i in LowMask(capacity) <==> i in Occupied(storage) || i in Members(free) {
    }
    assert LowMask(capacity) == Occupied(storage) + Members(free);
    assert Occupied(storage) !! Members(free);
  }

  lemma StorageSize<F>(run: Run, s: Shared, g: Guard, hand: set<nat>, storage: seq<Option<F>>, free: seq<nat>,
                       live: nat, polls: seq<nat>, last: int, step: int)
    requires Progress(run, s, g, hand, storage, polls, last, step)
    ensures |storage| == run.capacity
  {
  }

  lemma BelowCap(run: Run, polls: seq<nat>, last: int)
    requires PollsOk(run, polls, last) && |polls| != run.limit
    ensures |polls| < run.limit
  {
  }

  lemma StoreSize<F>(storage: seq<Option<F>>, free: seq<nat>, live: nat, capacity: nat)
    requires StoreOk(storage, free, live, capacity)
    ensures |storage| == capacity
  {
  }

  lemma WordInRange(s: Shared, g: Guard, hand: set<nat>, capacity: nat, word: nat)
    requires Env(s, g, hand, capacity)
    ensures |s.words| == WordsFor(capacity) && |s.summary| == SummariesFor(|s.words|)
    ensures word < |s.words| ==> forall b :: b in s.words[word] ==> b < WORD_BITS && Slot(word, b) < capacity
    ensures GuardInRange(g, capacity) && GuardSplit(g)
  {
  }

  lemma DeferredIsOwn(run: Run, g: Guard, r: int, step: int)
    requires RunOk(run) && GuardAhead(run, g, r, step)
    ensures g.deferred != {} ==> g.deferredWord == WordOf(run.start)
  {
  }

  lemma AheadIgnoresCurrent(run: Run, g: Guard, g': Guard, r: int, step: int, final: bool)
    requires RunOk(run) && GuardAhead(run, g, r, step) && SummaryAt(run, g, step, final)
    requires g' == g.(currentWord := g'.currentWord, current := g'.current)
    ensures GuardAhead(run, g', r, step) && SummaryAt(run, g', step, final)
  {
  }

  lemma KeptEnv<F>(run: Run, s: Shared, g: Guard, hand: set<nat>, storage: seq<Option<F>>, polls: seq<nat>, last: int)
    requires Kept(run, s, g, hand, storage, polls, last)
    ensures Env(s, g, hand, run.capacity) && |s.words| == WordsFor(run.capacity)
    ensures |s.summary| == SummariesFor(|s.words|)
    ensures GuardInRange(g, run.capacity) && GuardSplit(g)
  {
  }

  lemma EnvRanges(s: Shared, g: Guard, hand: set<nat>, capacity: nat)
    requires Env(s, g, hand, capacity)
    ensures InRange(s, capacity)
  {
  }

  lemma KeptRung<F>(run: Run, s: Shared, g: Guard, storage: seq<Option<F>>, polls: seq<nat>, last: int)
    requires Kept(run, s, g, {}, storage, polls, last) && GuardEmpty(g)
    ensures RungOk(run, s, NO_GUARD, {}, polls)
  {
  }

  lemma GiveCurrent(g: Guard, capacity: nat)
    requires GuardInRange(g, capacity) && GuardSplit(g) && g.current != {}
    ensures GaveBits(g, g.(current := {}), g.currentWord, g.current) && g.currentWord < WordsFor(capacity)
    ensures GuardInRange(g.(current := {}), capacity) && GuardSplit(g.(current := {}))
    ensures forall b :: b in g.current ==> b < WORD_BITS && Slot(g.currentWord, b) < capacity
  {
  }

  lemma GiveDeferred(g: Guard, capacity: nat)
    requires GuardInRange(g, capacity) && g.current == {} && g.deferred != {}
    ensures GaveBits(g, g.(deferred := {}), g.deferredWord, g.deferred) && g.deferredWord < WordsFor(capacity)
    ensures GuardInRange(g.(deferred := {}), capacity) && GuardSplit(g.(deferred := {}))
    ensures forall b :: b in g.deferred ==> b < WORD_BITS && Slot(g.deferredWord, b) < capacity
  {
  }

  lemma GiveSummary(g: Guard, capacity: nat)
    requires GuardInRange(g, capacity)
    requires WordsFor(capacity) > 1
    ensures g.summary != {} ==> g.summaryIndex < SummariesFor(WordsFor(capacity))
    ensures g.deferredSummary != {} ==> g.deferredSummaryIndex < SummariesFor(WordsFor(capacity))
    ensures GaveAnnouncements(g, g.(summary := {}), g.summaryIndex, g.summary)
    ensures GaveAnnouncements(g, g.(deferredSummary := {}), g.deferredSummaryIndex, g.deferredSummary)
    ensures GuardInRange(g.(summary := {}), capacity) && GuardInRange(g.(deferredSummary := {}), capacity)
    ensures forall b :: b in g.summary ==> b < WORD_BITS && Slot(g.summaryIndex, b) < WordsFor(capacity)
    ensures forall b :: b in g.deferredSummary ==> b < WORD_BITS && Slot(g.deferredSummaryIndex, b) < WordsFor(capacity)
  {
  }

  lemma WrapBelow(x: nat, n: nat)
    requires x < 2 * n
    ensures Wrap(x, n) < n
  {
  }

  lemma EmptyRung(run: Run, s: Shared, g: Guard, polls: seq<nat>)
    requires RungOk(run, s, g, {}, polls) && GuardEmpty(g)
    ensures RungOk(run, s, NO_GUARD, {}, polls)
  {
  }

  /** What a pass comes to. Polls are in strictly increasing circular order from
      the cursor, so no slot is polled twice, and only slots whose word was
      announced at the start or since; every slot visited was polled if it was
      occupied; every slot owed a poll got it, unless the cap stopped the pass
      before it: then it is still ready, ahead of every poll made, and nearer
      the cursor by at least as many slots as were polled. */
  ghost predicate Outcome<F>(run: Run, s: Shared, storage: seq<Option<F>>, polls: seq<nat>, cursor: nat, capped: bool) {
    && RunOk(run) && |storage| == run.capacity && |polls| <= run.limit && (capped ==> |polls| == run.limit)
    && (forall i :: 0 <= i < |polls| ==> polls[i] < run.capacity)
    && (forall i, j :: 0 <= i < j < |polls| ==> Distance(run, polls[i]) < Distance(run, polls[j]))
    && (forall i :: 0 <= i < |polls| ==> Rung(run, s, WordOf(polls[i])))
    && VisitsOk(run, s, storage, polls)
    && (forall y :: y in run.targets && y !in polls ==>
          && capped && cursor < run.capacity && y < run.capacity && storage[y].Some? && Ready(s, y)
          && Dist(cursor, y, run.capacity) + |polls| <= Distance(run, y)
          && forall i :: 0 <= i < |polls| ==> Distance(run, polls[i]) < Distance(run, y))
  }

  /** There is something a pass would find: a ready slot of the single word, or an
      announced word. */
  ghost predicate Waits(s: Shared, capacity: nat) {
    if |s.words| <= 1 then exists slot: nat :: slot < capacity && Ready(s, slot)
    else exists word: nat :: word < |s.words| && Announced(s, word)
  }

  /** The closing look of a pass that ran out of ready slots, begun in state `look`: the
      outcome stood then already, only other threads' marks came after, and what is
      reported was there to be found in the end and misses nothing there when it began. */
  ghost predicate Looked<F>(run: Run, look: Shared, s: Shared, storage: seq<Option<F>>, polls: seq<nat>, cursor: nat,
                            more: bool) {
    && Grew(look, s) && Env(look, NO_GUARD, {}, run.capacity)
    && Outcome(run, look, storage, polls, cursor, false)
    && (Waits(look, run.capacity) ==> more) && (more ==> Waits(s, run.capacity))
  }

  lemma WaitsGrew(s: Shared, s': Shared, capacity: nat)
    requires Grew(s, s')
    ensures Waits(s, capacity) ==> Waits(s', capacity)
    ensures |s'.words| == |s.words|
  {
    hide Ready, Announced;
  }

  lemma SameSizes(s: Shared, s': Shared)
    requires Grew(s, s')
    ensures |s'.words| == |s.words| && |s'.summary| == |s.summary|
  {
  }

  /** The single load of a set of at most one word. */
  lemma OneLoad(s: Shared, capacity: nat)
    requires InRange(s, capacity) && |s.words| <= 1
    ensures Waits(s, capacity) <==> |s.words| == 1 && s.words[0] != {}
  {
    if |s.words| == 1 && s.words[0] != {} {
      var b :| b in s.words[0];
      assert Ready(s, Slot(0, b));
    }
  }

  lemma NonzeroLoad(s: Shared, capacity: nat, i: nat)
    requires InRange(s, capacity) && |s.words| > 1 && i < |s.summary| && s.summary[i] != {}
    ensures Waits(s, capacity)
  {
    var b :| b in s.summary[i];
    assert Announced(s, Slot(i, b));
  }

  /** A summary word loaded as zero had nothing announced when the look began. */
  lemma ZeroLoad(first: Shared, s: Shared, i: nat)
    requires Grew(first, s) && i < |s.summary| && s.summary[i] == {}
    requires forall word: nat :: Announced(first, word) ==> WordOf(word) >= i
    ensures forall word: nat :: Announced(first, word) ==> WordOf(word) >= i + 1
  {
    forall word: nat | Announced(first, word) ensures WordOf(word) >= i + 1 {
      assert Announced(s, word);
    }
  }

  lemma NothingAnnounced(first: Shared, s: Shared, capacity: nat)
    requires Grew(first, s) && |first.words| > 1
    requires forall word: nat :: Announced(first, word) ==> WordOf(word) >= |s.summary|
    ensures !Waits(first, capacity)
  {
    forall word: nat ensures !Announced(first, word) {
    }
  }

  lemma WrapStart(run: Run)
    requires RunOk(run)
    ensures Wrap(run.start - 1 + 1, run.capacity) == run.start
  {
  }

  lemma BeginsOk<F>(run: Run, s: Shared, s': Shared, storage: seq<Option<F>>, hand: set<nat>, step: int)
    requires RunOk(run) && run.occupied == Occupied(storage) && run.first == s && s' == s.(rung := {})
    requires |storage| == run.capacity
    requires Env(s, NO_GUARD, {}, run.capacity)
    requires |s.words| > 1 ==> step == -1 && hand == {}
    requires |s.words| <= 1 ==> hand == {0}
    requires forall y :: y in run.targets ==>
      y < run.capacity && storage[y].Some? && Ready(s, y) && (|s.words| <= 1 || Announced(s, WordOf(y)))
    ensures Progress(run, s', NO_GUARD, hand, storage, [], -1, step)
  {
    hide Fresh, Due;
    SameBits(s, s');
    forall y | y in run.targets ensures Reachable(run, s', NO_GUARD, hand, y, step) {
    }
    assert forall w: nat :: !Holds(NO_GUARD, w);
    assert forall t: nat :: !Held(NO_GUARD, t);
  }

  /** In a set of one word only the cursor's own word is ever in hand. */
  lemma OneWordAhead(run: Run, g: Guard, r: nat)
    requires RunOk(run) && Words(run) == 1 && g.summary == {} && g.deferredSummary == {}
    requires g.deferred != {} ==> r == 0 && g.deferredWord == WordOf(run.start)
    requires forall b :: b in g.deferred ==> b < BitOf(run.start)
    ensures GuardAhead(run, g, r, 0)
  {
  }

  lemma SizesKeep<F>(run: Run, s: Shared, g: Guard, storage: seq<Option<F>>, polls: seq<nat>, last: int, step: int)
    requires Progress(run, s, g, {}, storage, polls, last, step)
    ensures |s.words| == WordsFor(run.capacity) && |s.summary| == SummariesFor(|s.words|)
  {
  }

  lemma DeferredInRange<F>(run: Run, s: Shared, g: Guard, storage: seq<Option<F>>, polls: seq<nat>, last: int,
                           step: int)
    requires Progress(run, s, g, {}, storage, polls, last, step)
    ensures forall b :: b in g.deferred ==> Slot(g.deferredWord, b) < run.capacity
    ensures |s.words| == WordsFor(run.capacity) && |s.summary| == SummariesFor(|s.words|)
  {
  }

  lemma NothingPassed(run: Run, g: Guard)
    requires RunOk(run) && g.current == {}
    ensures CurrentAt(run, g, -1, 0) && RankPassed(run, -1, 0)
  {
  }

  lemma ProgressRange<F>(run: Run, s: Shared, g: Guard, storage: seq<Option<F>>, polls: seq<nat>, last: int, step: int)
    requires Progress(run, s, g, {}, storage, polls, last, step)
    ensures InRange(s, run.capacity) && GuardInRange(g, run.capacity)
  {
  }

  lemma WrapRank(start: nat, k: nat, index: nat, summaries: nat)
    requires WordOf(WordOf(start)) < summaries && k < summaries
    requires index == Wrap(WordOf(WordOf(start)) + k, summaries)
    ensures index < summaries && SummaryRank(start, index, summaries) == k
  {
  }

  lemma AheadSame(run: Run, g: Guard, g': Guard, r: int, step: int)
    requires RunOk(run) && GuardAhead(run, g, r, step) && g' == g.(current := g'.current)
    ensures GuardAhead(run, g', r, step)
  {
  }

  lemma NewEnv(s: Shared, capacity: nat)
    requires |s.words| == WordsFor(capacity) && |s.summary| == SummariesFor(|s.words|)
    requires (forall w :: 0 <= w < |s.words| ==> s.words[w] == {}) &&
      (forall i :: 0 <= i < |s.summary| ==> s.summary[i] == {})
    requires s.announcing == multiset{} && s.log == []
    ensures Env(s, NO_GUARD, {}, capacity)
  {
  }

  lemma NewStore<F>(storage: seq<Option<F>>, free: seq<nat>, capacity: nat)
    requires |storage| == |free| == capacity
    requires forall i :: 0 <= i < capacity ==> storage[i].None? && free[i] == capacity - 1 - i
    ensures StoreOk(storage, free, 0, capacity)
  {
  }

  lemma InsertKeepsStore<F>(storage: seq<Option<F>>, free: seq<nat>, live: nat, capacity: nat, future: F)
    requires StoreOk(storage, free, live, capacity) && free != []
    ensures var index := free[|free| - 1];
      && index < capacity && storage[index].None?
      && StoreOk(storage[index := Some(future)], free[..|free| - 1], live + 1, capacity)
  {
  }

  lemma OwnMarkKeeps(s: Shared, g: Guard, capacity: nat, slot: nat)
    requires Env(s, g, {}, capacity) && slot < capacity
    ensures WordOf(slot) < |s.words|
    ensures var s' := SetBit(s, slot).(announcing := s.announcing);
      Env(s', g, RestoreHand(s, WordOf(slot)), capacity) && Ready(s', slot)
  {
    hide Fresh, Due, Held, Holds;
    MarkKeeps(s, g, {}, capacity, slot);
    var marked := SetBit(s, slot);
    var s' := marked.(announcing := s.announcing);
    SameBits(marked, s');
    SetBitReady(s, slot);
  }

  lemma OwnAnnounceKeeps(s: Shared, g: Guard, capacity: nat, word: nat)
    requires Env(s, g, {word}, capacity) && word < WordsFor(capacity)
    ensures |s.words| == WordsFor(capacity)
    ensures |s.summary| > 0 ==> WordOf(word) < |s.summary|
    ensures Env(SetSummary(s, word), g, {}, capacity)
    ensures forall t: nat :: Ready(SetSummary(s, word), t) <==> Ready(s, t)
  {
    hide LogOk, Holds, Announced;
    assert {} + {word} == {word};
    SetSummaryKeeps(s, g, {}, capacity, word);
    SetSummaryAnnounced(s, word);
  }

  /** The slots, the counters and the polls of a pass so far, and how each poll of the
      pass is answered. */
  datatype Stock<F> = Stock(storage: seq<Option<F>>, live: int, finished: int, polls: seq<nat>, answers: nat -> bool)

  /** A poll of the slot, not before the `n`th, finds its future finished. */
  ghost predicate Leaves(polls: seq<nat>, n: nat, answers: nat -> bool, slot: nat) {
    exists j :: n <= j < |polls| && polls[j] == slot && answers(j)
  }

  /** Exactly the futures a poll found finished left their slots, each counted once. */
  ghost predicate Thinned<F>(a: Stock<F>, b: Stock<F>) {
    && a.polls <= b.polls && b.answers == a.answers
    && |b.storage| == |a.storage| && b.live + b.finished == a.live + a.finished
    && forall i :: 0 <= i < |a.storage| ==>
         b.storage[i] == if Leaves(b.polls, |a.polls|, a.answers, i) then None else a.storage[i]
  }

  lemma ThinnedNone<F>(a: Stock<F>)
    ensures Thinned(a, a)
  {
  }

  lemma ThinnedThen<F>(a: Stock<F>, b: Stock<F>, c: Stock<F>)
    requires Thinned(a, b) && Thinned(b, c)
    ensures Thinned(a, c)
  {
    forall i | 0 <= i < |a.storage|
      ensures Leaves(c.polls, |a.polls|, a.answers, i) <==>
        Leaves(b.polls, |a.polls|, a.answers, i) || Leaves(c.polls, |b.polls|, a.answers, i)
    {
    }
  }

  lemma ThinnedPoll<F>(a: Stock<F>, b: Stock<F>, index: nat)
    requires |b.storage| == |a.storage| && index < |a.storage| && b.live + b.finished == a.live + a.finished
    requires forall i :: 0 <= i < |a.storage| && i != index ==> b.storage[i] == a.storage[i]
    requires b.storage[index] == if a.answers(|a.polls|) then None else a.storage[index]
    requires b.polls == a.polls + [index] && b.answers == a.answers
    ensures Thinned(a, b)
  {
    assert b.polls[|a.polls|] == index;
  }

  /** What left is what the counter fell by. */
  lemma ThinnedCounts<F>(a: Stock<F>, free: seq<nat>, b: Stock<F>, free': seq<nat>, capacity: nat)
    requires a.live >= 0 && StoreOk(a.storage, free, a.live, capacity)
    requires b.live >= 0 && StoreOk(b.storage, free', b.live, capacity)
    requires Thinned(a, b) && a.finished == 0
    ensures b.finished == a.live - b.live == |Occupied(a.storage) - Occupied(b.storage)|
  {
    hide StoreOk;
    LiveIsOccupied(a.storage, free, a.live, capacity);
    LiveIsOccupied(b.storage, free', b.live, capacity);
    assert Occupied(b.storage) <= Occupied(a.storage);
  }

  class Outstanding<F> {
    const capacity: nat

    var words: seq<set<nat>>
    var summary: seq<set<nat>>
    var announcing: multiset<nat>
    ghost var log: seq<Event>
    ghost var rung: set<nat>

    var storage: seq<Option<F>>
    var free: seq<nat>
    var live: nat
    var cursor: nat

    /** The harvest's report: the slots it has polled, in order, and how many
        futures finished. */
    var polls: seq<nat>
    var finished: nat
    /** Whether the future polled by the pass's `n`th poll is then finished. */
    var answers: nat -> bool

    ghost function S(): Shared
      reads this
    {
      Shared(words, summary, announcing, log, rung)
    }

    ghost function Stocked(): Stock<F>
      reads this
    {
      Stock(storage, live, finished, polls, answers)
    }

    ghost predicate Valid()
      reads this
    {
      && Env(S(), NO_GUARD, {}, capacity)
      && StoreOk(storage, free, live, capacity)
      && (cursor < capacity || cursor == 0)
    }

    // ---- Other threads ----------------------------------------------------------------------------------

    /** Any number of steps of any number of markers. */
    method Interfere(ghost g: Guard, ghost hand: set<nat>)
      requires Env(S(), g, hand, capacity)
      modifies `words, `summary, `announcing, `log, `rung
      ensures Env(S(), g, hand, capacity) && Grew(old(S()), S())
    {
      hide Env, Grew;
      GrewReflexive(S());
      var steps: nat := *;
      while steps > 0
        invariant Env(S(), g, hand, capacity) && Grew(old(S()), S())
      {
        ghost var before := S();
        var member: nat, announce: bool := *, *;
        if announce {
          if member in announcing { AnnounceWord(member, g, hand); }
        } else {
          if member < capacity { SetSlotBit(member, g, hand); }
        }
        GrewTransitive(old(S()), before, S());
        steps := steps - 1;
      }
    }

    /** A marker's first step: set the slot's bit. */
    method SetSlotBit(slot: nat, ghost g: Guard, ghost hand: set<nat>)
      requires Env(S(), g, hand, capacity) && slot < capacity
      modifies `words, `announcing, `log
      ensures Env(S(), g, hand, capacity) && Grew(old(S()), S()) && WordOf(slot) < |old(words)|
      ensures S() == SetBit(old(S()), slot)
    {
      hide Env, Grew;
      MarkKeeps(S(), g, hand, capacity, slot);
      var word := WordOf(slot);
      var previous := words[word];
      words := words[word := previous + {BitOf(slot)}];
      if previous == {} { announcing := announcing + multiset{word}; }
      log := log + [Mark(slot)];
    }

    /** A marker's second step, owed when it found the word zero. */
    method AnnounceWord(word: nat, ghost g: Guard, ghost hand: set<nat>)
      requires Env(S(), g, hand, capacity) && word in announcing
      modifies `summary, `announcing, `rung
      ensures Env(S(), g, hand, capacity) && Grew(old(S()), S())
    {
      hide Env, Grew;
      AnnounceKeeps(S(), g, hand, capacity, word);
      announcing := announcing - multiset{word};
      if |summary| > 0 {
        summary := summary[WordOf(word) := summary[WordOf(word)] + {BitOf(word)}];
      }
      rung := rung + {word};
    }

    // ---- Polling ----------------------------------------------------------------------------------------

    ghost predicate At(run: Run, g: Guard, hand: set<nat>, last: int, step: int)
      reads this
    {
      && run.capacity == capacity
      && Standing(run, S(), g, hand, storage, free, live, cursor, polls, last, step)
    }

    /** Other threads take any number of steps while the harvest stands still. */
    method Pause(ghost run: Run, ghost g: Guard, ghost hand: set<nat>, ghost last: int, ghost step: int)
      requires At(run, g, hand, last, step)
      modifies `words, `summary, `announcing, `log, `rung
      ensures At(run, g, hand, last, step)
    {
      hide Env, Grew, PollsOk, TargetsOk, RungOk, StoreOk;
      ghost var before := S();
      Interfere(g, hand);
      GrewProgress(run, before, S(), g, hand, storage, polls, last, step);
    }

    /** Poll one future: finished, it leaves its slot; otherwise it stays for another poll. */
    method PollSlot(index: nat)
      requires StoreOk(storage, free, live, capacity) && index < capacity && storage[index].Some? && polls != []
      modifies `storage, `free, `live, `finished
      ensures StoreOk(storage, free, live, capacity)
      ensures forall i :: 0 <= i < capacity && i != index ==> storage[i] == old(storage)[i]
      ensures if answers(|polls| - 1) then
                && storage[index].None? && free == old(free) + [index]
                && live == old(live) - 1 && finished == old(finished) + 1
              else
                storage == old(storage) && free == old(free) && live == old(live) && finished == old(finished)
    {
      if answers(|polls| - 1) {
        RemoveKeepsStore(storage, free, live, capacity, index);
        storage := storage[index := None];
        free := free + [index];
        live := live - 1;
        finished := finished + 1;
      }
    }

    /** Poll the next slot, with markers at work meanwhile. */
    method PollNext(index: nat, ghost g: Guard, ghost run: Run, ghost last: int, ghost step: int)
      requires Progress(run, S(), g, {}, storage, polls, last, step)
      requires StoreOk(storage, free, live, capacity) && run.capacity == capacity && index < capacity
      requires |storage| == capacity && storage[index].Some?
      modifies `words, `summary, `announcing, `log, `rung, `storage, `free, `live, `finished, `polls
      ensures Progress(run, S(), g, {}, old(storage), old(polls), last, step)
      ensures StoreOk(storage, free, live, capacity) && polls == old(polls) + [index]
      ensures |storage| == capacity && forall i :: 0 <= i < capacity && i != index ==> storage[i] == old(storage)[i]
      ensures Thinned(old(Stocked()), Stocked())
    {
      hide Env, Grew, PollsOk, TargetsOk, RungOk, Thinned;
      ghost var before, stock := S(), Stocked();
      polls := polls + [index];
      PollSlot(index);
      ThinnedPoll(stock, Stocked(), index);
      Interfere(g, {});
      GrewProgress(run, before, S(), g, {}, stock.storage, stock.polls, last, step);
    }

    /** Visit the bits in hand, lowest first, until they run out or the cap stops
        the pass. Stale bits cost no poll. */
    method PollCurrent(g: Guard, cap: nat, ghost run: Run, ghost last: int, ghost r: int, ghost step: int)
      returns (g': Guard, capped: bool, ghost last': int)
      requires At(run, g, {}, last, step) && run.limit == cap
      requires RunOk(run) && CurrentAt(run, g, last, r) && RankPassed(run, last, r)
      modifies this
      ensures At(run, g', {}, last', step) && g' == g.(current := g'.current)
      ensures CurrentAt(run, g', last', r) && RankPassed(run, last', r)
      ensures if capped then |polls| == cap else g'.current == {}
      ensures Thinned(old(Stocked()), Stocked())
    {
      hide Env, Grew, PollsOk, TargetsOk, RungOk, StoreOk, CurrentAt, RankPassed, Distance, Thinned;
      g', capped, last' := g, false, last;
      ThinnedNone(Stocked());
      while g'.current != {}
        invariant At(run, g', {}, last', step) && g' == g.(current := g'.current)
        invariant CurrentAt(run, g', last', r) && RankPassed(run, last', r) && !capped
        invariant Thinned(old(Stocked()), Stocked())
        decreases |g'.current|
      {
        VisitOrder(run, g', last', r);
        var bit := TrailingZeros(g'.current);
        var index := Slot(g'.currentWord, bit);
        ghost var storage0, polls0 := storage, polls;
        StorageSize(run, S(), g', {}, storage, free, live, polls, last', step);
        if storage[index].Some? {
          if |polls| == cap {
            capped := true;
            return;
          }
          BelowCap(run, polls, last');
          ghost var stock := Stocked();
          PollNext(index, g', run, last', step);
          ThinnedThen(old(Stocked()), stock, Stocked());
        }
        VisitProgress(run, S(), g', bit, storage0, storage, polls0, polls, last', step);
        CursorMoves(run, index);
        log := log + [Visit(index)];
        last' := Distance(run, index);
        g' := g'.(current := g'.current - {bit});
        cursor := if index + 1 == capacity then 0 else index + 1;
      }
    }

    // ---- Scanning ------------------------------------------------------------------------------------------

    /** Take a ready word whole. */
    method TakeWord(word: nat, ghost g: Guard, ghost hand: set<nat>) returns (bits: set<nat>)
      requires Env(S(), g, hand, capacity) && word < |words|
      modifies `words, `log
      ensures S() == WordTaken(old(S()), word) && bits == old(words)[word]
    {
      WordInRange(S(), g, hand, capacity, word);
      bits := words[word] * ValidMask(capacity, word);
      MaskKeepsAll(words[word], capacity, word);
      words := words[word := {}];
      log := log + [Take(word)];
    }

    /** Scan every word announced by the summary word in hand, lowest first. */
    method ScanAnnounced(g: Guard, cap: nat, ghost run: Run, ghost last: int, ghost r: int, ghost step: int,
                         ghost final: bool)
      returns (g': Guard, capped: bool, ghost last': int, ghost r': int)
      requires At(run, g, {}, last, step) && run.limit == cap && g.current == {}
      requires RunOk(run) && RankPassed(run, last, r) && GuardAhead(run, g, r, step) && SummaryAt(run, g, step, final)
      modifies this
      ensures At(run, g', {}, last', step)
      ensures g' == g.(summary := g'.summary, currentWord := g'.currentWord, current := g'.current)
      ensures RankPassed(run, last', r') && GuardAhead(run, g', r', step) && SummaryAt(run, g', step, final)
      ensures if capped then |polls| == cap && CurrentAt(run, g', last', r') else g'.summary == {} && g'.current == {}
      ensures Thinned(old(Stocked()), Stocked())
    {
      hide Env, Grew, Progress, StoreOk, CurrentAt, RankPassed, GuardAhead, SummaryAt, Distance, Thinned;
      g', capped, last', r' := g, false, last, r;
      ThinnedNone(Stocked());
      while g'.summary != {}
        invariant At(run, g', {}, last', step) && g'.current == {} && !capped
        invariant g' == g.(summary := g'.summary, currentWord := g'.currentWord, current := g'.current)
        invariant RankPassed(run, last', r') && GuardAhead(run, g', r', step) && SummaryAt(run, g', step, final)
        invariant Thinned(old(Stocked()), Stocked())
        decreases |g'.summary|
      {
        PopOrder(run, g', r', step, final);
        var bit := TrailingZeros(g'.summary);
        var word := Slot(g'.summaryIndex, bit);
        PopAnnounced(run, S(), g', bit, storage, polls, last', step);
        g' := g'.(summary := g'.summary - {bit});
        Pause(run, g', {word}, last', step);
        ghost var g0 := g';
        g' := EnterAnnounced(word, g', run, last', r', step);
        r' := Rank(run.start, word, Words(run));
        Pause(run, g', {}, last', step);
        ghost var stock := Stocked();
        g', capped, last' := PollCurrent(g', cap, run, last', r', step);
        ThinnedThen(old(Stocked()), stock, Stocked());
        AheadIgnoresCurrent(run, g0, g', r', step, final);
        if capped { return; }
      }
    }

    /** Take an announced word and put its bits in hand. */
    method EnterAnnounced(word: nat, g: Guard, ghost run: Run, ghost last: int, ghost r: int,
                          ghost step: int) returns (g': Guard)
      requires At(run, g, {word}, last, step) && g.current == {}
      requires RunOk(run) && RankPassed(run, last, r) && word < Words(run) && word != WordOf(run.start)
      requires Rank(run.start, word, Words(run)) > r && GuardAhead(run, g, Rank(run.start, word, Words(run)), step)
      modifies `words, `log
      ensures At(run, g', {}, last, step) && g' == g.(currentWord := word, current := g'.current)
      ensures CurrentAt(run, g', last, Rank(run.start, word, Words(run)))
      ensures RankPassed(run, last, Rank(run.start, word, Words(run)))
    {
      hide Grew, StoreOk, CurrentAt, RankPassed, Distance, Rank, Fresh, Due, LogOk, Covered, PollsOk, TargetsOk, RungOk;
      WordInRange(S(), g, {word}, capacity, word);
      DeferredIsOwn(run, g, Rank(run.start, word, Words(run)), step);
      WholeTooksWord(S(), g, word);
      ghost var before := S();
      var bits := TakeWord(word, g, {word});
      g' := g.(currentWord := word, current := bits);
      WordTakenProgress(run, before, g, g', word, storage, polls, last, step);
      forall b | b in bits && b < WORD_BITS
        ensures SlotRank(run.start, Slot(word, b), Words(run)) == Rank(run.start, word, Words(run))
      {
        WordRank(run, word, b);
      }
      EnterWord(run, g', last, r, Rank(run.start, word, Words(run)));
    }

    // ---- Giving back what the cap left --------------------------------------------------------------------

    ghost predicate Restoring(run: Run, g: Guard, hand: set<nat>, last: int)
      reads this
    {
      run.capacity == capacity && Kept(run, S(), g, hand, storage, polls, last)
    }

    method PauseRestoring(ghost run: Run, ghost g: Guard, ghost hand: set<nat>, ghost last: int)
      requires Restoring(run, g, hand, last)
      modifies `words, `summary, `announcing, `log, `rung
      ensures Restoring(run, g, hand, last)
    {
      hide Grew, PollsOk, RungOk;
      KeptEnv(run, S(), g, hand, storage, polls, last);
      hide Env;
      ghost var before := S();
      Interfere(g, hand);
      GrewKept(run, before, S(), g, hand, storage, polls, last);
    }

    /** Put bits back; the owner announces a word it finds zero. */
    method RestoreWord(word: nat, bits: set<nat>, ghost g: Guard, ghost g': Guard, ghost run: Run, ghost last: int)
      requires Restoring(run, g, {}, last) && word < WordsFor(capacity)
      requires GaveBits(g, g', word, bits) && GuardInRange(g', capacity) && GuardSplit(g')
      requires bits != {} && forall b :: b in bits ==> b < WORD_BITS && Slot(word, b) < capacity
      modifies `words, `summary, `announcing, `log, `rung
      ensures Restoring(run, g', {}, last)
    {
      hide Kept, GaveBits, GuardInRange, GuardSplit;
      KeptEnv(run, S(), g, {}, storage, polls, last);
      MaskKeepsAll(bits, capacity, word);
      var named := bits * ValidMask(capacity, word);
      if named == {} { return; }
      BitsRestoredKept(run, S(), g, g', word, bits, storage, polls, last);
      var previous := words[word];
      words := words[word := previous + named];
      if previous == {} {
        PauseRestoring(run, g', {word}, last);
        KeptEnv(run, S(), g', {word}, storage, polls, last);
        OwnAnnounceKept(run, S(), g', word, storage, polls, last);
        if |summary| > 0 {
          summary := summary[WordOf(word) := summary[WordOf(word)] + {BitOf(word)}];
        }
        rung := rung + {word};
      }
      PauseRestoring(run, g', {}, last);
    }

    /** Put announcements back. */
    method RestoreSummary(index: nat, members: set<nat>, ghost g: Guard, ghost g': Guard, ghost run: Run,
                          ghost last: int)
      requires Restoring(run, g, {}, last) && index < |summary|
      requires GaveAnnouncements(g, g', index, members) && GuardInRange(g', capacity)
      requires forall b :: b in members ==> b < WORD_BITS && Slot(index, b) < |words|
      modifies `words, `summary, `announcing, `log, `rung
      ensures Restoring(run, g', {}, last)
    {
      hide Kept, GaveAnnouncements, GuardInRange;
      KeptEnv(run, S(), g, {}, storage, polls, last);
      MaskKeepsAll(members, |words|, index);
      AnnouncementsRestoredKept(run, S(), g, g', index, members, storage, polls, last);
      summary := summary[index := summary[index] + members * ValidMask(|words|, index)];
      PauseRestoring(run, g', {}, last);
    }

    method RestoreBits(guard: Guard, ghost run: Run, ghost last: int) returns (g: Guard)
      requires Restoring(run, guard, {}, last)
      modifies `words, `summary, `announcing, `log, `rung
      ensures g == guard.(current := {}, deferred := {}) && Restoring(run, g, {}, last)
    {
      hide Kept, GaveBits, Env, GuardInRange, GuardSplit;
      g := guard;
      KeptEnv(run, S(), g, {}, storage, polls, last);
      if g.current != {} {
        GiveCurrent(g, capacity);
        RestoreWord(g.currentWord, g.current, g, g.(current := {}), run, last);
        g := g.(current := {});
      }
      if g.deferred != {} {
        KeptEnv(run, S(), g, {}, storage, polls, last);
        GiveDeferred(g, capacity);
        RestoreWord(g.deferredWord, g.deferred, g, g.(deferred := {}), run, last);
        g := g.(deferred := {});
      }
    }

    /** Give back everything the guard holds. */
    method Restore(guard: Guard, ghost run: Run, ghost last: int)
      requires Restoring(run, guard, {}, last)
      requires |summary| == 0 ==> guard.summary == {} && guard.deferredSummary == {}
      modifies `words, `summary, `announcing, `log, `rung
      ensures Env(S(), NO_GUARD, {}, capacity)
      ensures forall y :: y in run.targets && y !in polls ==> y < |storage| && storage[y].Some? && Ready(S(), y)
      ensures RungOk(run, S(), NO_GUARD, {}, polls) && VisitsOk(run, S(), storage, polls)
    {
      hide Kept, GaveAnnouncements, Env, GuardInRange, GuardSplit;
      KeptEnv(run, S(), guard, {}, storage, polls, last);
      var g := RestoreBits(guard, run, last);
      KeptEnv(run, S(), g, {}, storage, polls, last);
      if g.summary != {} {
        GiveSummary(g, capacity);
        RestoreSummary(g.summaryIndex, g.summary, g, g.(summary := {}), run, last);
        g := g.(summary := {});
      }
      if g.deferredSummary != {} {
        KeptEnv(run, S(), g, {}, storage, polls, last);
        GiveSummary(g, capacity);
        RestoreSummary(g.deferredSummaryIndex, g.deferredSummary, g, g.(deferredSummary := {}), run, last);
        g := g.(deferredSummary := {});
      }
      EndsKept(run, S(), g, storage, polls, last);
      KeptRung(run, S(), g, storage, polls, last);
    }

    /** Whether anything is ready: the single ready word, or the summary words one
        load at a time with markers at work in between, up to the first nonzero. It
        misses nothing that was there when it began, and reports nothing that is not
        there when it returns. */
    method HasReady(ghost g: Guard) returns (ready: bool)
      requires Env(S(), g, {}, capacity)
      modifies `words, `summary, `announcing, `log, `rung
      ensures Env(S(), g, {}, capacity) && Grew(old(S()), S())
      ensures Waits(old(S()), capacity) ==> ready
      ensures ready ==> Waits(S(), capacity)
    {
      hide Env, Grew, InRange, Waits, Announced;
      Interfere(g, {});
      WaitsGrew(old(S()), S(), capacity);
      EnvRanges(S(), g, {}, capacity);
      if |words| <= 1 {
        ready := |words| == 1 && words[0] != {};
        OneLoad(S(), capacity);
        return;
      }
      ready := false;
      var i := 0;
      while i < |summary|
        invariant 0 <= i <= |summary| && |words| > 1 && !ready
        invariant Env(S(), g, {}, capacity) && Grew(old(S()), S())
        invariant forall word: nat :: Announced(old(S()), word) ==> WordOf(word) >= i
      {
        EnvRanges(S(), g, {}, capacity);
        if summary[i] != {} {
          NonzeroLoad(S(), capacity, i);
          ready := true;
          break;
        }
        ZeroLoad(old(S()), S(), i);
        i := i + 1;
        ghost var before := S();
        Interfere(g, {});
        GrewTransitive(old(S()), before, S());
        SameSizes(before, S());
      }
      if !ready { NothingAnnounced(old(S()), S(), capacity); }
    }

    // ---- The harvest ------------------------------------------------------------------------------------------

    /** Everything a poll is owed to: ready, occupied, and its word announced. */
    ghost function Owed(): set<nat>
      requires |storage| == capacity
      reads this
    {
      set y | 0 <= y < capacity && Ready(S(), y) && (|words| <= 1 || Announced(S(), WordOf(y))) && storage[y].Some?
    }

    /** The cap stopped the pass: give back what is left and report it. */
    method CapExit(g: Guard, ghost run: Run, ghost last: int, ghost r: int, ghost step: int)
      requires At(run, g, {}, last, step) && step >= 0 && |polls| == run.limit
      requires RunOk(run) && GuardAhead(run, g, r, step) && CurrentAt(run, g, last, r) && RankPassed(run, last, r)
      requires |summary| == 0 ==> g.summary == {} && g.deferredSummary == {}
      modifies `words, `summary, `announcing, `log, `rung
      ensures Valid() && Outcome(run, S(), storage, polls, cursor, true)
    {
      hide Env, GuardAhead, CurrentAt, RankPassed, StoreOk, Reachable, Rung, Dist;
      ghost var before := S();
      forall y | y in run.targets && y !in polls ensures y < capacity && Distance(run, y) > last {
        OwedIsAhead(run, before, g, last, r, step, y);
      }
      ProgressKept(run, S(), g, storage, polls, last, step);
      Restore(g, run, last);
      forall y | y in run.targets && y !in polls
        ensures cursor < run.capacity && Dist(cursor, y, run.capacity) + |polls| <= Distance(run, y)
      {
        DistMoves(run.start, last + 1, y, run.capacity);
      }
      WrapBelow(run.start + last + 1, capacity);
    }

    /** The pass ran out of ready slots. */
    method RunOut(g: Guard, ghost run: Run, ghost last: int, ghost step: int) returns (more: bool)
      requires At(run, g, {}, last, step) && GuardEmpty(g) && step >= |summary| - 1
      modifies `words, `summary, `announcing, `log, `rung
      ensures Valid() && Outcome(run, S(), storage, polls, cursor, false)
      ensures Looked(run, old(S()), S(), storage, polls, cursor, more)
    {
      hide Env, StoreOk, Waits, Grew;
      ghost var before := S();
      RunsOut(run, before, g, storage, polls, last, step);
      EmptyRung(run, before, g, polls);
      more := HasReady(g);
      SameSizes(before, S());
      GrewProgress(run, before, S(), g, {}, storage, polls, last, step);
      RunsOut(run, S(), g, storage, polls, last, step);
      EmptyRung(run, S(), g, polls);
      WrapBelow(run.start + last + 1, capacity);
    }

    /** Begin a pass: nothing polled, nothing announced since. */
    method Begin(cap: nat, ghost hand: set<nat>, ghost step: int) returns (ghost run: Run)
      requires Valid() && capacity > 0
      requires |words| > 1 ==> step == -1 && hand == {}
      requires |words| <= 1 ==> hand == {0}
      modifies `polls, `finished, `rung
      ensures polls == [] && finished == 0
      ensures RunOk(run) && run == Run(cursor, capacity, cap, old(Owed()), old(Occupied(storage)), old(S()))
      ensures At(run, NO_GUARD, hand, -1, step)
    {
      polls, finished := [], 0;
      run := Run(cursor, capacity, cap, Owed(), Occupied(storage), S());
      rung := {};
      BeginsOk(run, old(S()), S(), storage, hand, step);
      WrapStart(run);
    }

    /** Take a summary word. */
    method TakeSummary(index: nat) returns (members: set<nat>)
      requires InRange(S(), capacity) && index < |summary|
      modifies `summary
      ensures S() == SummaryTaken(old(S()), index) && members == old(summary)[index]
    {
      members := summary[index] * ValidMask(|words|, index);
      MaskKeepsAll(summary[index], |words|, index);
      summary := summary[index := {}];
    }

    /** The cursor's own summary word, split at the cursor's word. */
    method FirstSummary(ghost run: Run) returns (g: Guard)
      requires RunOk(run) && At(run, NO_GUARD, {}, -1, -1) && |words| > 1 && run.start == cursor
      modifies `words, `summary, `announcing, `log, `rung
      ensures At(run, g, {}, -1, 0) && g.current == {} && g.deferred == {}
      ensures g.summaryIndex == g.deferredSummaryIndex == WordOf(WordOf(cursor))
      ensures forall b :: b in g.summary ==>
        BitOf(WordOf(cursor)) <= b < WORD_BITS && Slot(g.summaryIndex, b) < Words(run)
      ensures forall b :: b in g.deferredSummary ==> b < BitOf(WordOf(cursor)) && Slot(g.summaryIndex, b) < Words(run)
    {
      hide Env, PollsOk, TargetsOk, RungOk, StoreOk, TookSummary;
      EnvRanges(S(), NO_GUARD, {}, capacity);
      var startWord := WordOf(cursor);
      var own, low := WordOf(startWord), BitOf(startWord);
      ghost var before := S();
      var announced := TakeSummary(own);
      g := NO_GUARD.(deferredSummaryIndex := own, deferredSummary := Below(announced, low),
                     summaryIndex := own, summary := announced - Below(announced, low));
      SplitTooksSummary(before, NO_GUARD, own, low);
      SummaryTakenProgress(run, before, NO_GUARD, g, own, storage, polls, -1, -1);
      Pause(run, g, {}, -1, 0);
    }

    /** Put the cursor's own word in hand, split at the cursor's bit. */
    method SplitOwnWord(g: Guard, ghost run: Run, ghost step: int) returns (g': Guard)
      requires RunOk(run) && run.start == cursor && At(run, g, {WordOf(cursor)}, -1, step) && g.current == {}
      requires g.deferred == {}
      modifies `words, `log
      ensures At(run, g', {}, -1, step)
      ensures g' == g.(currentWord := WordOf(run.start), current := g'.current, deferredWord := WordOf(run.start),
        deferred := g'.deferred)
      ensures CurrentAt(run, g', -1, 0) && RankPassed(run, -1, 0)
      ensures forall b :: b in g'.deferred ==> b < BitOf(run.start)
    {
      hide Grew, StoreOk, Fresh, Due, LogOk, Covered, PollsOk, TargetsOk, RungOk, Distance;
      var word, low := WordOf(cursor), BitOf(cursor);
      WordInRange(S(), g, {word}, capacity, word);
      SplitTooksWord(S(), g, word, low);
      ghost var before := S();
      var bits := TakeWord(word, g, {word});
      g' := g.(deferredWord := word, deferred := Below(bits, low), currentWord := word,
        current := bits - Below(bits, low));
      WordTakenProgress(run, before, g, g', word, storage, polls, -1, step);
      forall b | b in g'.current ensures b < WORD_BITS && SlotRank(run.start, Slot(word, b), Words(run)) == 0 {
        OwnWordRank(run, b);
      }
    }

    /** The one-word fast path: no summary is touched. */
    method HarvestSingle(cap: nat) returns (more: bool, capped: bool, ghost run: Run, ghost look: Shared)
      requires Valid() && capacity > 0 && |words| == 1
      modifies this
      ensures Valid() && RunOk(run)
      ensures run == Run(old(cursor), capacity, cap, old(Owed()), old(Occupied(storage)), old(S()))
      ensures Outcome(run, S(), storage, polls, cursor, capped)
      ensures if capped then more else Looked(run, look, S(), storage, polls, cursor, more)
      ensures Thinned(Stock(old(storage), old(live), 0, [], old(answers)), Stocked())
    {
      hide Looked, Thinned, Env, StoreOk, Progress, CurrentAt, RankPassed, Outcome, Distance;
      EnvRanges(S(), NO_GUARD, {}, capacity);
      run := Begin(cap, {0}, 0);
      look := S();
      ghost var begun := Stocked();
      ghost var last;
      var g := SplitOwnWord(NO_GUARD, run, 0);
      Pause(run, g, {}, -1, 0);
      g, capped, last := PollCurrent(g, cap, run, -1, 0, 0);
      OneWordAhead(run, g, 0);
      if capped {
        SizesKeep(run, S(), g, storage, polls, last, 0);
        CapExit(g, run, last, 0, 0);
        return true, true, run, look;
      }
      ghost var stock := Stocked();
      DeferredInRange(run, S(), g, storage, polls, last, 0);
      DeferredLast(run, g, last, 0, 0);
      ActivateDeferred(run, S(), g, storage, polls, last, 0);
      g := g.(currentWord := g.deferredWord, current := g.deferred, deferred := {});
      g, capped, last := PollCurrent(g, cap, run, last, Words(run), 0);
      ThinnedThen(begun, stock, Stocked());
      OneWordAhead(run, g, Words(run));
      SizesKeep(run, S(), g, storage, polls, last, 0);
      if capped {
        CapExit(g, run, last, Words(run), 0);
        return true, true, run, look;
      }
      look := S();
      more := RunOut(g, run, last, 0);
    }

    /** Begin the scan: the cursor's summary word comes in hand, and if it announces
        the cursor's own word, that word is scanned from the cursor on. */
    method ScanOwn(cap: nat, ghost run: Run) returns (g: Guard, capped: bool, ghost last: int)
      requires RunOk(run) && At(run, NO_GUARD, {}, -1, -1) && |words| > 1 && run.start == cursor && run.limit == cap
      modifies this
      ensures At(run, g, {}, last, 0) && CurrentAt(run, g, last, 0) && RankPassed(run, last, 0)
      ensures GuardAhead(run, g, 0, 0) && SummaryAt(run, g, 0, false)
      ensures if capped then |polls| == cap else g.current == {}
      ensures Thinned(old(Stocked()), Stocked())
    {
      hide Env, StoreOk, Progress, CurrentAt, RankPassed, GuardAhead, SummaryAt, Distance, SlotRank, Thinned;
      ThinnedNone(Stocked());
      SizesKeep(run, S(), NO_GUARD, storage, polls, -1, -1);
      g := FirstSummary(run);
      var startWord := WordOf(cursor);
      var bit := BitOf(startWord);
      NothingPassed(run, g);
      capped, last := false, -1;
      if bit in g.summary {
        PopAnnounced(run, S(), g, bit, storage, polls, -1, 0);
        g := g.(summary := g.summary - {bit});
        Pause(run, g, {startWord}, -1, 0);
        g := SplitOwnWord(g, run, 0);
        Pause(run, g, {}, -1, 0);
        FirstSummaryAhead(run, g);
        ghost var g0 := g;
        g, capped, last := PollCurrent(g, cap, run, -1, 0, 0);
        AheadIgnoresCurrent(run, g0, g, 0, 0, false);
      } else {
        FirstSummaryAhead(run, g);
      }
    }

    /** Take the next summary word of the rotation. */
    method EnterSummary(index: nat, g: Guard, ghost run: Run, ghost last: int, ghost r: int, ghost step: int)
      returns (g': Guard)
      requires RunOk(run) && At(run, g, {}, last, step) && InRange(S(), capacity) && index < |summary|
      requires g.summary == {} && g.current == {} && GuardInRange(g, capacity)
      requires step >= 0 && |summary| == SummariesFor(Words(run)) && |words| == Words(run) > 1
      requires SummaryRank(run.start, index, |summary|) == step + 1
      requires GuardAhead(run, g, r, step) && SummaryAt(run, g, step, false)
      modifies `words, `summary, `announcing, `log, `rung
      ensures At(run, g', {}, last, step + 1) && g' == g.(summaryIndex := index, summary := g'.summary)
      ensures GuardAhead(run, g', r, step + 1) && SummaryAt(run, g', step + 1, false)
    {
      hide Env, Grew, StoreOk, Progress, GuardAhead, SummaryAt, Distance, TookSummary;
      ghost var before := S();
      var members := TakeSummary(index);
      g' := g.(summaryIndex := index, summary := members);
      WholeTooksSummary(before, g, index);
      NextSummaryAhead(run, g, r, step, index, members);
      SummaryTakenProgress(run, before, g, g', index, storage, polls, last, step);
      Pause(run, g', {}, last, step + 1);
    }

    /** Every summary word in rotation, the cursor's own first, up to the wrap. */
    method ScanRotation(guard: Guard, cap: nat, start: nat, ghost run: Run, ghost last0: int)
      returns (g: Guard, capped: bool, ghost last: int, ghost r: int, ghost step: int)
      requires RunOk(run) && run.start == start && At(run, guard, {}, last0, 0) && |words| > 1 && guard.current == {}
      requires run.limit == cap
      requires RankPassed(run, last0, 0) && GuardAhead(run, guard, 0, 0) && SummaryAt(run, guard, 0, false)
      modifies this
      ensures At(run, g, {}, last, step) && RankPassed(run, last, r) && step >= 0
      ensures GuardAhead(run, g, r, step) && SummaryAt(run, g, step, false)
      ensures if capped then |polls| == cap && CurrentAt(run, g, last, r)
              else g.summary == {} && g.current == {} && step == SummariesFor(Words(run)) - 1
      ensures Thinned(old(Stocked()), Stocked())
    {
      hide Env, Grew, StoreOk, Progress, CurrentAt, RankPassed, GuardAhead, SummaryAt, Distance, TookSummary, Thinned;
      var startSummary := WordOf(WordOf(start));
      SizesKeep(run, S(), guard, storage, polls, last0, 0);
      var summaries := |summary|;
      g, capped, last, r := ScanAnnounced(guard, cap, run, last0, 0, 0, false);
      var passed := 0;
      step := 0;
      while !capped && passed + 1 < summaries
        invariant step == passed && passed < summaries == SummariesFor(Words(run))
        invariant At(run, g, {}, last, step) && RankPassed(run, last, r)
        invariant GuardAhead(run, g, r, step) && SummaryAt(run, g, step, false)
        invariant if capped then |polls| == cap && CurrentAt(run, g, last, r) else g.summary == {} && g.current == {}
        invariant Thinned(old(Stocked()), Stocked())
      {
        SizesKeep(run, S(), g, storage, polls, last, step);
        ProgressRange(run, S(), g, storage, polls, last, step);
        WrapMod(startSummary + passed + 1, summaries);
        var index := (startSummary + passed + 1) % summaries;
        WrapRank(run.start, passed + 1, index, summaries);
        g := EnterSummary(index, g, run, last, r, step);
        passed := passed + 1;
        step := passed;
        ghost var stock := Stocked();
        g, capped, last, r := ScanAnnounced(g, cap, run, last, r, step, false);
        ThinnedThen(old(Stocked()), stock, Stocked());
      }
    }

    /** The words behind the cursor in its own summary word, then the bits behind it
        in its own word: last in circular order. */
    method ScanRest(guard: Guard, cap: nat, ghost run: Run, ghost last0: int, ghost r0: int, ghost step: int)
      returns (g: Guard, capped: bool, ghost last: int, ghost r: int)
      requires RunOk(run) && At(run, guard, {}, last0, step) && |words| > 1 && guard.current == {} && run.limit == cap
      requires RankPassed(run, last0, r0) && GuardAhead(run, guard, r0, step) && SummaryAt(run, guard, step, false)
      requires guard.summary == {} && step == SummariesFor(Words(run)) - 1 >= 0
      modifies this
      ensures At(run, g, {}, last, step) && RankPassed(run, last, r) && GuardAhead(run, g, r, step)
      ensures if capped then |polls| == cap && CurrentAt(run, g, last, r) else GuardEmpty(g)
      ensures Thinned(old(Stocked()), Stocked())
    {
      hide Env, Grew, StoreOk, Progress, CurrentAt, RankPassed, GuardAhead, SummaryAt, Distance, Thinned;
      LastSummaryAhead(run, guard, r0, step);
      ActivateSummary(run, S(), guard, storage, polls, last0, step);
      g := guard.(summaryIndex := guard.deferredSummaryIndex, summary := guard.deferredSummary, deferredSummary := {});
      g, capped, last, r := ScanAnnounced(g, cap, run, last0, r0, step, true);
      if capped { return; }
      DeferredInRange(run, S(), g, storage, polls, last, step);
      DeferredLast(run, g, last, r, step);
      ActivateDeferred(run, S(), g, storage, polls, last, step);
      g := g.(currentWord := g.deferredWord, current := g.deferred, deferred := {});
      r := Words(run);
      ghost var g0, stock := g, Stocked();
      g, capped, last := PollCurrent(g, cap, run, last, r, step);
      ThinnedThen(old(Stocked()), stock, Stocked());
      AheadSame(run, g0, g, r, step);
    }

    /** The multiword path: one rotation at two levels. */
    method HarvestMany(cap: nat) returns (more: bool, capped: bool, ghost run: Run, ghost look: Shared)
      requires Valid() && capacity > 0 && |words| > 1
      modifies this
      ensures Valid() && RunOk(run)
      ensures run == Run(old(cursor), capacity, cap, old(Owed()), old(Occupied(storage)), old(S()))
      ensures Outcome(run, S(), storage, polls, cursor, capped)
      ensures if capped then more else Looked(run, look, S(), storage, polls, cursor, more)
      ensures Thinned(Stock(old(storage), old(live), 0, [], old(answers)), Stocked())
    {
      hide Looked, Thinned, Env, StoreOk, Progress, CurrentAt, RankPassed, GuardAhead, SummaryAt, Outcome, Distance;
      EnvRanges(S(), NO_GUARD, {}, capacity);
      var start := cursor;
      run := Begin(cap, {}, -1);
      look := S();
      ghost var begun := Stocked();
      ghost var last, r, step := -1, 0, 0;
      var g;
      g, capped, last := ScanOwn(cap, run);
      SizesKeep(run, S(), g, storage, polls, last, 0);
      if !capped {
        ghost var stock := Stocked();
        g, capped, last, r, step := ScanRotation(g, cap, start, run, last);
        ThinnedThen(begun, stock, Stocked());
        SizesKeep(run, S(), g, storage, polls, last, step);
        if !capped {
          stock := Stocked();
          g, capped, last, r := ScanRest(g, cap, run, last, r, step);
          ThinnedThen(begun, stock, Stocked());
          SizesKeep(run, S(), g, storage, polls, last, step);
        }
      }
      if capped {
        CapExit(g, run, last, r, step);
        more := true;
      } else {
        look := S();
        more := RunOut(g, run, last, step);
      }
    }

    /** One pass over the ready slots, at most `cap` polls. The report counts the polls and
        the futures that left, exactly those a poll found finished, and says whether the
        cap stopped the pass or its closing look, begun in state `look`, found something. */
    method Harvest(cap: nat, answers: nat -> bool)
      returns (report: Report, ghost run: Run, ghost capped: bool, ghost look: Shared)
      requires Valid()
      modifies this
      ensures Valid()
      ensures cap == 0 || capacity == 0 ==>
        && report.polled == 0 && report.finished == 0
        && Grew(old(S()), S()) && storage == old(storage) && live == old(live) && cursor == old(cursor)
        && (Waits(old(S()), capacity) ==> report.moreReady) && (report.moreReady ==> Waits(S(), capacity))
      ensures cap > 0 && capacity > 0 ==>
        && run == Run(old(cursor), capacity, cap, old(Owed()), old(Occupied(storage)), old(S()))
        && Outcome(run, S(), storage, polls, cursor, capped)
        && report.polled == |polls|
        && report.finished == old(live) - live == |old(Occupied(storage)) - Occupied(storage)|
        && (forall i :: 0 <= i < capacity ==>
              storage[i] == if exists j :: 0 <= j < |polls| && polls[j] == i && answers(j) then None
                            else old(storage)[i])
        && (if capped then report.moreReady
            else Looked(run, look, S(), storage, polls, cursor, report.moreReady))
    {
      hide Env, Outcome, Grew, Waits, Looked, StoreOk;
      EnvRanges(S(), NO_GUARD, {}, capacity);
      StoreSize(storage, free, live, capacity);
      var more;
      if cap == 0 || capacity == 0 {
        look := S();
        more := HasReady(NO_GUARD);
        report, capped := Report(0, 0, more), false;
        run := Run(cursor, capacity, cap, Owed(), Occupied(storage), S());
        return;
      }
      this.answers := answers;
      ghost var begun, free0 := Stock(storage, live, 0, [], answers), free;
      var stopped;
      if |words| == 1 {
        more, stopped, run, look := HarvestSingle(cap);
      } else {
        more, stopped, run, look := HarvestMany(cap);
      }
      ThinnedCounts(begun, free0, Stocked(), free, capacity);
      capped := stopped;
      report := Report(|polls|, finished, more);
    }

    // ---- Construction and insertion ----------------------------------------------------------------------------

    constructor (capacity: nat)
      requires capacity <= MAX_CAPACITY
      ensures Valid() && this.capacity == capacity && live == 0 && forall i :: 0 <= i < capacity ==> storage[i].None?
    {
      this.capacity := capacity;
      words := seq(WordsFor(capacity), _ => {});
      summary := seq(SummariesFor(WordsFor(capacity)), _ => {});
      announcing := multiset{};
      log, rung := [], {};
      storage := seq(capacity, _ => None);
      free := seq(capacity, i requires 0 <= i < capacity => capacity - 1 - i);
      live, cursor, polls, finished, answers := 0, 0, [], 0, _ => false;
      new;
      NewEnv(S(), capacity);
      NewStore(storage, free, capacity);
    }

    /** Insert a future in the last slot freed and mark it ready; a full set hands
        the future back. */
    method TryPush(future: F) returns (rejected: Option<F>)
      requires Valid()
      modifies this
      ensures Valid() && cursor == old(cursor)
      ensures old(free) == [] ==>
        rejected == Some(future) && storage == old(storage) && live == old(live) == capacity && S() == old(S())
      ensures old(free) != [] ==>
        var index := old(free)[|old(free)| - 1];
        && rejected == None && index < capacity && old(storage)[index].None?
        && storage == old(storage)[index := Some(future)] && free == old(free)[..|old(free)| - 1] &&
             live == old(live) + 1
        && Ready(S(), index)
    {
      hide Env, LogOk, Grew;
      if free == [] {
        rejected := Some(future);
        return;
      }
      rejected := None;
      InsertKeepsStore(storage, free, live, capacity, future);
      var index := free[|free| - 1];
      free := free[..|free| - 1];
      storage := storage[index := Some(future)];
      live := live + 1;
      MarkOwn(index);
    }

    /** The owner marks a slot itself, announcing its word if it was zero. */
    method MarkOwn(slot: nat)
      requires Env(S(), NO_GUARD, {}, capacity) && slot < capacity
      modifies `words, `summary, `announcing, `log, `rung
      ensures Env(S(), NO_GUARD, {}, capacity) && Ready(S(), slot)
    {
      hide Env, Ready;
      OwnMarkKeeps(S(), NO_GUARD, capacity, slot);
      var word := WordOf(slot);
      var previous := words[word];
      words := words[word := previous + {BitOf(slot)}];
      log := log + [Mark(slot)];
      if previous == {} {
        Interfere(NO_GUARD, {word});
        OwnAnnounceKeeps(S(), NO_GUARD, capacity, word);
        if |summary| > 0 {
          summary := summary[WordOf(word) := summary[WordOf(word)] + {BitOf(word)}];
        }
        rung := rung + {word};
      }
      Interfere(NO_GUARD, {});
    }
  }

  // ---- Fairness over many passes ----------------------------------------------------------------------------------

  /** A pass, as the slots see it: where it started, what it polled, where it left
      the cursor. */
  datatype Pass = Pass(start: nat, polls: seq<nat>, next: nat)

  ghost predicate PassOk(pass: Pass, capacity: nat) {
    && pass.start < capacity && pass.next < capacity
    && (forall i :: 0 <= i < |pass.polls| ==> pass.polls[i] < capacity)
    && (forall i, j :: 0 <= i < j < |pass.polls| ==>
          Dist(pass.start, pass.polls[i], capacity) < Dist(pass.start, pass.polls[j], capacity))
  }

  ghost predicate PassedOver(pass: Pass, y: nat, capacity: nat)
    requires PassOk(pass, capacity) && y < capacity
  {
    y !in pass.polls && Dist(pass.next, y, capacity) + |pass.polls| <= Dist(pass.start, y, capacity)
  }

  function TotalPolls(passes: seq<Pass>): nat {
    if passes == [] then 0 else |passes[0].polls| + TotalPolls(passes[1..])
  }

  /** A pass polls a slot it owes a poll, or passes over it. */
  lemma OwedIsPolledOrPassedOver<F>(run: Run, s: Shared, storage: seq<Option<F>>, polls: seq<nat>, cursor: nat,
                                    capped: bool, y: nat)
    requires Outcome(run, s, storage, polls, cursor, capped) && y in run.targets && y !in polls
    ensures capped && y < run.capacity && Ready(s, y) && storage[y].Some?
    ensures PassOk(Pass(run.start, polls, cursor), run.capacity)
    ensures PassedOver(Pass(run.start, polls, cursor), y, run.capacity)
  {
  }

  /** Polls made before `y` in one pass are all nearer than `y`. */
  lemma {:induction false} PollsBefore(pass: Pass, capacity: nat, i: nat)
    requires PassOk(pass, capacity) && i < |pass.polls|
    ensures i <= Dist(pass.start, pass.polls[i], capacity)
    decreases i
  {
    if i > 0 { PollsBefore(pass, capacity, i - 1); }
  }

  /** Over any series of capped passes, a slot at distance `d` that is owed a poll
      throughout is polled within the next `d + 1` polls. */
  lemma {:induction false} PolledWithinItsDistance(passes: seq<Pass>, y: nat, capacity: nat, i: nat)
    requires |passes| > 0 && y < capacity && PassOk(passes[0], capacity)
    requires forall k :: 0 <= k < |passes| ==> PassOk(passes[k], capacity)
    requires forall k :: 0 < k < |passes| ==> passes[k].start == passes[k - 1].next
    requires forall k :: 0 <= k < |passes| - 1 ==> PassedOver(passes[k], y, capacity)
    requires i < |passes[|passes| - 1].polls| && passes[|passes| - 1].polls[i] == y
    ensures TotalPolls(passes[..|passes| - 1]) + i <= Dist(passes[0].start, y, capacity)
    decreases |passes|
  {
    if |passes| == 1 {
      PollsBefore(passes[0], capacity, i);
    } else {
      PolledWithinItsDistance(passes[1..], y, capacity, i);
      assert passes[1..][..|passes| - 2] == passes[..|passes| - 1][1..];
    }
  }

  /** So no more than `d` passes in a row, each polling at least one slot, can pass
      over a slot at distance `d`. */
  lemma {:induction false} PassedOverFewTimes(passes: seq<Pass>, y: nat, capacity: nat)
    requires |passes| > 0 && y < capacity && PassOk(passes[0], capacity)
    requires forall k :: 0 <= k < |passes| ==> PassOk(passes[k], capacity) && passes[k].polls != []
    requires forall k :: 0 < k < |passes| ==> passes[k].start == passes[k - 1].next
    requires forall k :: 0 <= k < |passes| ==> PassedOver(passes[k], y, capacity)
    ensures |passes| <= TotalPolls(passes) <= Dist(passes[0].start, y, capacity)
    decreases |passes|
  {
    if |passes| > 1 {
      PassedOverFewTimes(passes[1..], y, capacity);
    } else {
      assert passes[1..] == [];
    }
  }

  /** One harvest and what it came to. */
  datatype Ended<F> = Ended(run: Run, shared: Shared, storage: seq<Option<F>>, polls: seq<nat>, cursor: nat,
    capped: bool)

  /** Harvests in a row, each from the cursor the one before left, all of which owe
      `y` a poll. */
  ghost predicate Series<F>(ends: seq<Ended<F>>, y: nat, capacity: nat) {
    && ends != [] && y < capacity
    && (forall k :: 0 <= k < |ends| ==>
          var e := ends[k];
          && Outcome(e.run, e.shared, e.storage, e.polls, e.cursor, e.capped)
          && e.run.capacity == capacity && y in e.run.targets)
    && (forall k :: 0 < k < |ends| ==> ends[k].run.start == ends[k - 1].cursor)
  }

  function PollsOf<F>(ends: seq<Ended<F>>): nat {
    if ends == [] then 0 else |ends[0].polls| + PollsOf(ends[1..])
  }

  /** Over any run of harvests, under any interference, a slot at distance `d` from
      the first one's cursor that stays owed a poll is polled within the next `d + 1`
      polls: at most `d` come before its own, and at most `d` come at all while it
      has none. */
  lemma {:induction false} OwedIsPolledInTime<F>(ends: seq<Ended<F>>, y: nat, capacity: nat)
    requires Series(ends, y, capacity) && forall k :: 0 <= k < |ends| - 1 ==> y !in ends[k].polls
    ensures RunOk(ends[0].run)
    ensures var d := Dist(ends[0].run.start, y, capacity);
      var (last, before) := (ends[|ends| - 1].polls, PollsOf(ends[..|ends| - 1]));
      && (forall i :: 0 <= i < |last| && last[i] == y ==> before + i <= d)
      && (y !in last ==> before + |last| <= d)
    decreases |ends|
  {
    hide Outcome, Dist;
    var e := ends[0];
    OutcomeOrder(e, y);
    if |ends| == 1 {
      var pass := Pass(e.run.start, e.polls, e.run.start);
      forall i | 0 <= i < |e.polls| && e.polls[i] == y ensures i <= Dist(e.run.start, y, capacity) {
        PollsBefore(pass, capacity, i);
      }
    } else {
      OwedIsPolledInTime(ends[1..], y, capacity);
      assert ends[1..][..|ends| - 2] == ends[..|ends| - 1][1..];
    }
  }

  lemma OutcomeOrder<F>(e: Ended<F>, y: nat)
    requires Outcome(e.run, e.shared, e.storage, e.polls, e.cursor, e.capped) && y in e.run.targets
    requires y < e.run.capacity
    ensures RunOk(e.run) && PassOk(Pass(e.run.start, e.polls, e.run.start), e.run.capacity)
    ensures y !in e.polls ==>
      e.cursor < e.run.capacity && Dist(e.cursor, y, e.run.capacity) + |e.polls| <= Dist(e.run.start, y, e.run.capacity)
  {
    hide Dist;
  }

  /** Between passes, a ready occupied slot is owed a poll exactly when its word is
      announced; and it is, unless a marker of its word is between its two steps. */
  lemma ReadyIsOwed(s: Shared, capacity: nat, y: nat)
    requires Env(s, NO_GUARD, {}, capacity) && y < capacity && Ready(s, y)
    requires WordOf(y) !in s.announcing
    ensures |s.words| <= 1 || Announced(s, WordOf(y))
  {
  }

  /** The exception is real: a marker has set its bit and not announced the word. */
  lemma MarkedButUnannounced()
    ensures var s := Shared([{}, {0}], [{}], multiset{1}, [Mark(64)], {});
      Env(s, NO_GUARD, {}, 65) && Ready(s, 64) && !Announced(s, WordOf(64))
  {
    var s0 := Shared([{}, {}], [{}], multiset{}, [], {});
    NewEnv(s0, 65);
    MarkKeeps(s0, NO_GUARD, {}, 65, 64);
    assert WordOf(64) == 1 && BitOf(64) == 0;
    var marked: seq<set<nat>> := [{}, {0}];
    var found := s0.words[1 := s0.words[1] + {0}];
    assert |found| == |marked| && found[0] == marked[0] && found[1] == marked[1];
    assert found == marked;
    assert SetBit(s0, 64) == Shared([{}, {0}], [{}], multiset{1}, [Mark(64)], {});
  }

  /** And while it lasts no pass polls the slot: a word neither announced when the
      pass began nor since is not scanned. */
  lemma UnannouncedIsNotPolled<F>(run: Run, s: Shared, storage: seq<Option<F>>, polls: seq<nat>, cursor: nat,
                                  capped: bool, y: nat)
    requires Outcome(run, s, storage, polls, cursor, capped)
    requires |s.summary| > 0 && !Announced(run.first, WordOf(y)) && WordOf(y) !in s.rung
    ensures y !in polls
  {
  }
}
