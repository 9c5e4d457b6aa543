/** The two-level ready bitmap shared by every slot waker, as values: what one
    atomic step does to it, and what no interleaving of such steps can lose. */
module ReadyBits {
  import opened Bits

  const MAX_WORDS: nat := 1024
  const MAX_CAPACITY: nat := WORD_BITS * MAX_WORDS

  /** What happened to the bitmap, in order. */
  datatype Event = Mark(slot: nat) | Take(word: nat) | Visit(visited: nat)

  /** The shared words, the markers that have made a word nonzero and are about to
      announce it, the history, and the words announced since a harvest began. */
  datatype Shared = Shared(
    words: seq<set<nat>>, summary: seq<set<nat>>, announcing: multiset<nat>,
    log: seq<Event>, rung: set<nat>)

  /** What a harvest has taken out of the bitmap. */
  datatype Guard = Guard(
    summaryIndex: nat, summary: set<nat>, deferredSummaryIndex: nat, deferredSummary: set<nat>,
    currentWord: nat, current: set<nat>, deferredWord: nat, deferred: set<nat>)

  const NO_GUARD: Guard := Guard(0, {}, 0, {}, 0, {}, 0, {})

  function WordOf(slot: nat): nat { slot / WORD_BITS }

  function BitOf(slot: nat): (b: nat)
    ensures b < WORD_BITS && slot == WordOf(slot) * WORD_BITS + b
  {
    slot % WORD_BITS
  }

  function Slot(word: nat, bit: nat): (slot: nat)
    requires bit < WORD_BITS
    ensures WordOf(slot) == word && BitOf(slot) == bit
  {
    word * WORD_BITS + bit
  }

  /** Words needed for `n` bits. */
  function WordsFor(n: nat): (words: nat)
    ensures words * WORD_BITS >= n && (n > 0 ==> (words - 1) * WORD_BITS < n) && (n == 0 ==> words == 0)
  {
    (n + WORD_BITS - 1) / WORD_BITS
  }

  /** One ready word needs no summary. */
  function SummariesFor(words: nat): (n: nat)
    ensures words > 1 ==> n > 0 && forall w :: 0 <= w < words ==> WordOf(w) < n
    ensures words <= 1 <==> n == 0
  {
    if words > 1 then WordsFor(words) else 0
  }

  predicate Ready(s: Shared, slot: nat) {
    WordOf(slot) < |s.words| && BitOf(slot) in s.words[WordOf(slot)]
  }

  predicate Announced(s: Shared, word: nat) {
    WordOf(word) < |s.summary| && BitOf(word) in s.summary[WordOf(word)]
  }

  /** A slot whose bit the harvest has in hand. */
  predicate Held(g: Guard, slot: nat) {
    || (WordOf(slot) == g.currentWord && BitOf(slot) in g.current)
    || (WordOf(slot) == g.deferredWord && BitOf(slot) in g.deferred)
  }

  /** A word whose announcement the harvest has in hand. */
  predicate Holds(g: Guard, word: nat) {
    || (WordOf(word) == g.summaryIndex && BitOf(word) in g.summary)
    || (WordOf(word) == g.deferredSummaryIndex && BitOf(word) in g.deferredSummary)
  }

  // ---- The history's meaning ----------------------------------------------------------------

  /** The slot was marked after its word was last taken. */
  ghost predicate Fresh(log: seq<Event>, slot: nat) {
    log != [] &&
    var (past, e) := (log[..|log| - 1], log[|log| - 1]);
    match e
    case Mark(t) => t == slot || Fresh(past, slot)
    case Take(w) => w != WordOf(slot) && Fresh(past, slot)
    case Visit(_) => Fresh(past, slot)
  }

  /** The slot has a mark that no visit has answered: a visit answers the marks
      that were there when its word was taken, and no later one. */
  ghost predicate Due(log: seq<Event>, slot: nat) {
    log != [] &&
    var (past, e) := (log[..|log| - 1], log[|log| - 1]);
    match e
    case Mark(t) => t == slot || Due(past, slot)
    case Take(_) => Due(past, slot)
    case Visit(t) => if t == slot then Fresh(past, slot) else Due(past, slot)
  }

  lemma LogStep(log: seq<Event>, e: Event, slot: nat)
    ensures Fresh(log + [e], slot) ==
      match e
      case Mark(t) => t == slot || Fresh(log, slot)
      case Take(w) => w != WordOf(slot) && Fresh(log, slot)
      case Visit(_) => Fresh(log, slot)
    ensures Due(log + [e], slot) ==
      match e
      case Mark(t) => t == slot || Due(log, slot)
      case Take(_) => Due(log, slot)
      case Visit(t) => if t == slot then Fresh(log, slot) else Due(log, slot)
  {
  }

  // ---- The invariant ----------------------------------------------------------------------------

  /** Bits are where the capacity allows them, so no mask ever drops one. */
  ghost predicate InRange(s: Shared, capacity: nat) {
    && |s.words| == WordsFor(capacity) && |s.summary| == SummariesFor(|s.words|)
    && (forall w, b :: 0 <= w < |s.words| && b in s.words[w] ==> b < WORD_BITS && Slot(w, b) < capacity)
    && (forall i, b :: 0 <= i < |s.summary| && b in s.summary[i] ==> b < WORD_BITS && Slot(i, b) < |s.words|)
    && (forall w :: w in s.announcing ==> w < |s.words|)
  }

  ghost predicate GuardInRange(g: Guard, capacity: nat) {
    && (forall b :: b in g.current ==> b < WORD_BITS && Slot(g.currentWord, b) < capacity)
    && (forall b :: b in g.deferred ==> b < WORD_BITS && Slot(g.deferredWord, b) < capacity)
    && (forall b :: b in g.summary ==> b < WORD_BITS && Slot(g.summaryIndex, b) < WordsFor(capacity))
    && (forall b :: b in g.deferredSummary ==> b < WORD_BITS && Slot(g.deferredSummaryIndex, b) < WordsFor(capacity))
  }

  /** A nonzero ready word has its summary bit set, a marker still about to announce
      it, or its announcement in the harvester's hands. */
  ghost predicate Covered(s: Shared, g: Guard, hand: set<nat>) {
    |s.summary| > 0 ==> forall w :: 0 <= w < |s.words| && s.words[w] != {} ==>
      Announced(s, w) || w in s.announcing || Holds(g, w) || w in hand
  }

  /** The bits set or in hand are exactly the marks no visit has answered. */
  ghost predicate LogOk(s: Shared, g: Guard) {
    forall slot: nat ::
      && (Due(s.log, slot) <==> Ready(s, slot) || Held(g, slot))
      && (Fresh(s.log, slot) ==> Ready(s, slot))
      && (Held(g, slot) && Ready(s, slot) ==> Fresh(s.log, slot))
  }

  /** The current and the deferred bits are different slots. */
  ghost predicate GuardSplit(g: Guard) {
    g.currentWord == g.deferredWord ==> g.current !! g.deferred
  }

  ghost predicate Env(s: Shared, g: Guard, hand: set<nat>, capacity: nat) {
    InRange(s, capacity) && GuardInRange(g, capacity) && GuardSplit(g) && Covered(s, g, hand) && LogOk(s, g)
  }

  /** What other threads can do between two of the owner's steps: set bits. */
  ghost predicate Grew(s: Shared, s': Shared) {
    && |s.words| == |s'.words| && |s.summary| == |s'.summary| && s.rung <= s'.rung
    && s.log <= s'.log && (forall k :: |s.log| <= k < |s'.log| ==> s'.log[k].Mark?)
    && (forall slot: nat :: Ready(s, slot) ==> Ready(s', slot))
    && (forall w: nat :: Announced(s, w) ==> Announced(s', w))
    && (forall w: nat :: Announced(s', w) ==> Announced(s, w) || w in s'.rung)
  }

  lemma GrewReflexive(s: Shared)
    ensures Grew(s, s)
  {
  }

  lemma GrewTransitive(a: Shared, b: Shared, c: Shared)
    requires Grew(a, b) && Grew(b, c)
    ensures Grew(a, c)
  {
  }

  // ---- Atomic steps of a marker -----------------------------------------------------------------

  /** `fetch_or` of one slot's bit; a word that was zero is now the marker's to
      announce. */
  function SetBit(s: Shared, slot: nat): Shared
    requires WordOf(slot) < |s.words|
  {
    var w := WordOf(slot);
    s.(words := s.words[w := s.words[w] + {BitOf(slot)}],
       announcing := if s.words[w] == {} then s.announcing + multiset{w} else s.announcing,
       log := s.log + [Mark(slot)])
  }

  function SetSummary(s: Shared, word: nat): Shared
    requires |s.summary| > 0 ==> WordOf(word) < |s.summary|
  {
    s.(summary := if |s.summary| == 0 then s.summary
                  else s.summary[WordOf(word) := s.summary[WordOf(word)] + {BitOf(word)}],
       rung := s.rung + {word})
  }

  /** A marker's announcement of a word it found zero. */
  function Announce(s: Shared, word: nat): Shared
    requires |s.summary| > 0 ==> WordOf(word) < |s.summary|
  {
    SetSummary(s.(announcing := s.announcing - multiset{word}), word)
  }

  lemma SetBitReady(s: Shared, slot: nat)
    requires WordOf(slot) < |s.words|
    ensures forall t: nat :: Ready(SetBit(s, slot), t) <==> t == slot || Ready(s, t)
    ensures forall w: nat :: Announced(SetBit(s, slot), w) <==> Announced(s, w)
  {
  }

  lemma MarkKeeps(s: Shared, g: Guard, hand: set<nat>, capacity: nat, slot: nat)
    requires Env(s, g, hand, capacity) && slot < capacity
    ensures WordOf(slot) < |s.words|
    ensures Env(SetBit(s, slot), g, hand, capacity) && Grew(s, SetBit(s, slot))
  {
    hide Ready, Held, Holds, GuardInRange, GuardSplit;
    SlotWord(slot, capacity);
    var s' := SetBit(s, slot);
    SetBitReady(s, slot);
    SetBitRange(s, capacity, slot);
    SetBitCovered(s, g, hand, slot);
    forall t: nat ensures (Due(s'.log, t) <==> Ready(s', t) || Held(g, t)) && (Fresh(s'.log, t) ==> Ready(s', t))
      ensures Held(g, t) && Ready(s', t) ==> Fresh(s'.log, t)
    {
      LogStep(s.log, Mark(slot), t);
    }
  }

  lemma SlotWord(slot: nat, n: nat)
    requires slot < n
    ensures WordOf(slot) < WordsFor(n)
  {
  }

  lemma SetBitRange(s: Shared, capacity: nat, slot: nat)
    requires InRange(s, capacity) && slot < capacity && WordOf(slot) < |s.words|
    ensures InRange(SetBit(s, slot), capacity)
  {
  }

  lemma SetBitCovered(s: Shared, g: Guard, hand: set<nat>, slot: nat)
    requires Covered(s, g, hand) && WordOf(slot) < |s.words|
    ensures Covered(SetBit(s, slot), g, hand)
  {
  }

  lemma SetSummaryAnnounced(s: Shared, word: nat)
    requires |s.summary| > 0 ==> WordOf(word) < |s.summary|
    ensures var s' := SetSummary(s, word);
      && (forall w: nat :: Announced(s', w) <==> Announced(s, w) || (w == word && |s.summary| > 0))
      && (forall t: nat :: Ready(s', t) <==> Ready(s, t))
  {
  }

  lemma SetSummaryKeeps(s: Shared, g: Guard, hand: set<nat>, capacity: nat, word: nat)
    requires InRange(s, capacity) && GuardInRange(g, capacity) && GuardSplit(g) && LogOk(s, g)
    requires Covered(s, g, hand + {word}) && word < |s.words|
    ensures |s.summary| > 0 ==> WordOf(word) < |s.summary|
    ensures Env(SetSummary(s, word), g, hand, capacity) && Grew(s, SetSummary(s, word))
  {
    hide Ready, Held, Holds, GuardInRange, GuardSplit, Fresh, Due, Announced;
    SetSummaryAnnounced(s, word);
    SetSummaryRange(s, capacity, word);
  }

  lemma SetSummaryRange(s: Shared, capacity: nat, word: nat)
    requires InRange(s, capacity) && word < |s.words|
    ensures |s.summary| > 0 ==> WordOf(word) < |s.summary|
    ensures InRange(SetSummary(s, word), capacity)
  {
  }

  lemma AnnounceKeeps(s: Shared, g: Guard, hand: set<nat>, capacity: nat, word: nat)
    requires Env(s, g, hand, capacity) && word in s.announcing
    ensures |s.summary| > 0 ==> WordOf(word) < |s.summary|
    ensures Env(Announce(s, word), g, hand, capacity) && Grew(s, Announce(s, word))
  {
    hide Held, Holds, GuardInRange, GuardSplit, Fresh, Due;
    var t := s.(announcing := s.announcing - multiset{word});
    assert Covered(t, g, hand + {word}) by {
      forall w | 0 <= w < |t.words| && t.words[w] != {}
        ensures |t.summary| > 0 ==> Announced(t, w) || w in t.announcing || Holds(g, w) || w in hand + {word}
      {
        assert Announced(t, w) == Announced(s, w);
      }
    }
    assert LogOk(t, g) by {
      assert forall slot: nat :: Ready(t, slot) == Ready(s, slot);
    }
    SetSummaryKeeps(t, g, hand, capacity, word);
    assert Grew(s, t) by {
      assert forall slot: nat :: Ready(t, slot) == Ready(s, slot);
      assert forall w: nat :: Announced(t, w) == Announced(s, w);
    }
    GrewTransitive(s, t, SetSummary(t, word));
  }
}
