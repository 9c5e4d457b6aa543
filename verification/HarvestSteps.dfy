/** The owner's steps through one harvest, on values: what each take, visit and
    restore keeps of the bitmap, of the order of polls, and of the slots the
    harvest must not pass over. */
module HarvestSteps {
  import opened Options
  import opened Bits
  import opened ReadyBits
  import opened HarvestOrder

  /** One harvest: where its cursor stood, how many polls it may make, the slots
      it owes a poll, the slots occupied, and the bitmap it found. */
  datatype Run = Run(start: nat, capacity: nat, limit: nat, targets: set<nat>, occupied: set<nat>, first: Shared)

  ghost predicate RunOk(run: Run) {
    run.start < run.capacity && WordOf(run.start) < WordsFor(run.capacity)
  }

  function Distance(run: Run, i: nat): nat
    requires RunOk(run)
  {
    if i < run.capacity then Dist(run.start, i, run.capacity) else run.capacity
  }

  /** Polls come in strictly increasing circular order, none past `last`. */
  ghost predicate PollsOk(run: Run, polls: seq<nat>, last: int) {
    && RunOk(run) && -1 <= last < run.capacity && |polls| <= last + 1 && |polls| <= run.limit
    && (forall i :: 0 <= i < |polls| ==> polls[i] < run.capacity && Distance(run, polls[i]) <= last)
    && (forall i, j :: 0 <= i < j < |polls| ==> Distance(run, polls[i]) < Distance(run, polls[j]))
  }

  ghost predicate Untaken(run: Run, s: Shared, slot: nat, step: int)
    requires RunOk(run)
  {
    && Announced(s, WordOf(slot)) && |s.summary| == SummariesFor(WordsFor(run.capacity))
    && WordOf(WordOf(run.start)) < |s.summary|
    && SummaryRank(run.start, WordOf(WordOf(slot)), |s.summary|) > step
  }

  /** A slot the harvest owes a poll is still where the scan will come to it. */
  ghost predicate Reachable(run: Run, s: Shared, g: Guard, hand: set<nat>, slot: nat, step: int)
    requires RunOk(run)
  {
    || Held(g, slot)
    || (Ready(s, slot) && (WordOf(slot) in hand || Holds(g, WordOf(slot)) || Untaken(run, s, slot, step)))
  }

  ghost predicate TargetsOk<F>(run: Run, s: Shared, g: Guard, hand: set<nat>, storage: seq<Option<F>>,
                               polls: seq<nat>, step: int) {
    && RunOk(run) && |storage| == run.capacity
    && (forall y :: y in run.targets && y !in polls ==>
          y < run.capacity && storage[y].Some? && Reachable(run, s, g, hand, y, step))
  }

  /** A word was announced when the harvest began, or has been since. */
  ghost predicate Rung(run: Run, s: Shared, w: nat) {
    |s.summary| == 0 || Announced(run.first, w) || w in s.rung
  }

  ghost predicate RungOk(run: Run, s: Shared, g: Guard, hand: set<nat>, polls: seq<nat>) {
    && (forall w: nat :: Announced(s, w) || Holds(g, w) || w in hand ==> Rung(run, s, w))
    && (forall slot: nat :: Held(g, slot) ==> Rung(run, s, WordOf(slot)))
    && (forall i :: 0 <= i < |polls| ==> Rung(run, s, WordOf(polls[i])))
  }

  /** A visit polls the slot unless it was vacant: no readiness is dropped unread. */
  ghost predicate VisitsOk<F>(run: Run, s: Shared, storage: seq<Option<F>>, polls: seq<nat>) {
    && run.first.log <= s.log
    && (forall k :: |run.first.log| <= k < |s.log| && s.log[k].Visit? ==>
          s.log[k].visited in polls || s.log[k].visited !in run.occupied)
    && (forall y :: y in run.occupied ==> y < |storage| && (y in polls || storage[y].Some?))
  }

  ghost predicate Progress<F>(run: Run, s: Shared, g: Guard, hand: set<nat>, storage: seq<Option<F>>,
                              polls: seq<nat>, last: int, step: int) {
    && Env(s, g, hand, run.capacity) && PollsOk(run, polls, last)
    && TargetsOk(run, s, g, hand, storage, polls, step)
    && RungOk(run, s, g, hand, polls) && VisitsOk(run, s, storage, polls)
  }

  // ---- Other threads ------------------------------------------------------------------------------

  lemma GrewProgress<F>(run: Run, s: Shared, s': Shared, g: Guard, hand: set<nat>, storage: seq<Option<F>>,
                        polls: seq<nat>, last: int, step: int)
    requires Progress(run, s, g, hand, storage, polls, last, step)
    requires Env(s', g, hand, run.capacity) && Grew(s, s')
    ensures Progress(run, s', g, hand, storage, polls, last, step)
  {
    hide Env, Ready, Held, Holds, Announced, PollsOk;
    assert forall w: nat :: Rung(run, s, w) ==> Rung(run, s', w);
  }

  // ---- Taking a summary word ------------------------------------------------------------------------

  function SummaryTaken(s: Shared, i: nat): Shared
    requires i < |s.summary|
  {
    s.(summary := s.summary[i := {}])
  }

  lemma SummaryTakenBits(s: Shared, i: nat)
    requires i < |s.summary|
    ensures var s' := SummaryTaken(s, i);
      && (forall t: nat :: Ready(s', t) <==> Ready(s, t))
      && (forall w: nat :: Announced(s', w) <==> Announced(s, w) && WordOf(w) != i)
      && (forall w: nat :: WordOf(w) == i ==> (Announced(s, w) <==> BitOf(w) in s.summary[i]))
  {
  }

  /** The guard now holds what summary word `i` announced, split or not. */
  ghost predicate TookSummary(s: Shared, g: Guard, g': Guard, i: nat)
    requires i < |s.summary|
  {
    && (forall w: nat :: Holds(g', w) <==> Holds(g, w) || (WordOf(w) == i && BitOf(w) in s.summary[i]))
    && g'.currentWord == g.currentWord && g'.current == g.current
    && g'.deferredWord == g.deferredWord && g'.deferred == g.deferred
  }

  lemma SummaryTakenEnv(s: Shared, g: Guard, g': Guard, capacity: nat, i: nat)
    requires Env(s, g, {}, capacity) && i < |s.summary| && TookSummary(s, g, g', i) && GuardInRange(g', capacity)
    ensures Env(SummaryTaken(s, i), g', {}, capacity)
  {
  }

  lemma SummaryTakenProgress<F>(run: Run, s: Shared, g: Guard, g': Guard, i: nat, storage: seq<Option<F>>,
                                polls: seq<nat>, last: int, step: int)
    requires Progress(run, s, g, {}, storage, polls, last, step)
    requires i < |s.summary| && TookSummary(s, g, g', i) && GuardInRange(g', run.capacity)
    requires |s.summary| == SummariesFor(WordsFor(run.capacity)) && WordOf(WordOf(run.start)) < |s.summary|
    requires SummaryRank(run.start, i, |s.summary|) == step + 1
    ensures Progress(run, SummaryTaken(s, i), g', {}, storage, polls, last, step + 1)
  {
    hide Env, Ready, Holds, Announced, PollsOk, GuardInRange, SummaryRank;
    var s' := SummaryTaken(s, i);
    SummaryTakenEnv(s, g, g', run.capacity, i);
    SummaryTakenBits(s, i);
    assert forall t: nat :: Held(g', t) <==> Held(g, t);
    forall y | y in run.targets && y !in polls
      ensures y < run.capacity && storage[y].Some? && Reachable(run, s', g', {}, y, step + 1)
    {
      if Ready(s, y) && Untaken(run, s, y, step) { RankIsPlace(run.start, WordOf(WordOf(y)), i, |s.summary|); }
    }
  }

  lemma RankIsPlace(start: nat, x: nat, y: nat, summaries: nat)
    requires WordOf(WordOf(start)) < summaries && x < summaries && y < summaries
    ensures SummaryRank(start, x, summaries) == SummaryRank(start, y, summaries) <==> x == y
  {
  }

  // ---- Taking a ready word ----------------------------------------------------------------------------

  function WordTaken(s: Shared, w: nat): Shared
    requires w < |s.words|
  {
    s.(words := s.words[w := {}], log := s.log + [Take(w)])
  }

  lemma WordTakenBits(s: Shared, w: nat)
    requires w < |s.words|
    ensures var s' := WordTaken(s, w);
      && (forall t: nat :: Ready(s', t) <==> Ready(s, t) && WordOf(t) != w)
      && (forall t: nat :: WordOf(t) == w ==> (Ready(s, t) <==> BitOf(t) in s.words[w]))
      && (forall v: nat :: Announced(s', v) <==> Announced(s, v))
  {
  }

  /** The guard now holds the bits of word `w`, split or not. */
  ghost predicate TookWord(s: Shared, g: Guard, g': Guard, w: nat)
    requires w < |s.words|
  {
    && (forall t: nat :: Held(g', t) <==> Held(g, t) || (WordOf(t) == w && BitOf(t) in s.words[w]))
    && g'.summaryIndex == g.summaryIndex && g'.summary == g.summary
    && g'.deferredSummaryIndex == g.deferredSummaryIndex && g'.deferredSummary == g.deferredSummary
  }

  lemma WordTakenCovered(s: Shared, g: Guard, g': Guard, w: nat)
    requires Covered(s, g, {w}) && w < |s.words| && TookWord(s, g, g', w)
    ensures Covered(WordTaken(s, w), g', {})
  {
  }

  lemma WordTakenEnv(s: Shared, g: Guard, g': Guard, capacity: nat, w: nat)
    requires Env(s, g, {w}, capacity) && w < |s.words| && TookWord(s, g, g', w)
    requires GuardInRange(g', capacity) && GuardSplit(g')
    ensures Env(WordTaken(s, w), g', {}, capacity)
  {
    hide Ready, Held, Holds, Announced, GuardInRange, GuardSplit, Covered;
    var s' := WordTaken(s, w);
    WordTakenBits(s, w);
    WordTakenCovered(s, g, g', w);
    assert InRange(s', capacity);
    forall t: nat ensures (Due(s'.log, t) <==> Ready(s', t) || Held(g', t)) && (Fresh(s'.log, t) ==> Ready(s', t))
      ensures Held(g', t) && Ready(s', t) ==> Fresh(s'.log, t)
    {
      LogStep(s.log, Take(w), t);
    }
  }

  lemma WordTakenProgress<F>(run: Run, s: Shared, g: Guard, g': Guard, w: nat, storage: seq<Option<F>>,
                             polls: seq<nat>, last: int, step: int)
    requires Progress(run, s, g, {w}, storage, polls, last, step) && w < |s.words|
    requires TookWord(s, g, g', w) && GuardInRange(g', run.capacity) && GuardSplit(g')
    ensures Progress(run, WordTaken(s, w), g', {}, storage, polls, last, step)
  {
    hide Env, Ready, Held, Announced, PollsOk, GuardInRange, GuardSplit, SummaryRank;
    WordTakenEnv(s, g, g', run.capacity, w);
    WordTakenBits(s, w);
    assert forall v: nat :: Holds(g', v) <==> Holds(g, v);
    var s' := WordTaken(s, w);
    forall y | y in run.targets && y !in polls
      ensures y < run.capacity && storage[y].Some? && Reachable(run, s', g', {}, y, step)
    {
    }
  }

  // ---- Going from an announcement to its word ------------------------------------------------------------

  lemma PopAnnounced<F>(run: Run, s: Shared, g: Guard, b: nat, storage: seq<Option<F>>, polls: seq<nat>, last: int,
                        step: int)
    requires Progress(run, s, g, {}, storage, polls, last, step) && b in g.summary && b < WORD_BITS
    ensures var g' := g.(summary := g.summary - {b});
      Progress(run, s, g', {Slot(g.summaryIndex, b)}, storage, polls, last, step)
    ensures Slot(g.summaryIndex, b) < |s.words|
  {
    hide Ready, Announced, PollsOk, Fresh, Due, SummaryRank;
    var g' := g.(summary := g.summary - {b});
    var w := Slot(g.summaryIndex, b);
    forall v: nat ensures Holds(g, v) ==> Holds(g', v) || v == w {
      if WordOf(v) == g.summaryIndex && BitOf(v) == b { assert v == w; }
    }
    assert Holds(g, w);
    assert forall v: nat :: Holds(g', v) ==> Holds(g, v);
    assert forall t: nat :: Held(g', t) <==> Held(g, t);
  }

  /** Bringing the deferred announcements, or the deferred bits, back in hand. */
  lemma ActivateSummary<F>(run: Run, s: Shared, g: Guard, storage: seq<Option<F>>, polls: seq<nat>, last: int,
                           step: int)
    requires Progress(run, s, g, {}, storage, polls, last, step) && g.summary == {}
    ensures Progress(run, s,
      g.(summaryIndex := g.deferredSummaryIndex, summary := g.deferredSummary, deferredSummary := {}),
                     {}, storage, polls, last, step)
  {
    hide Ready, Announced, PollsOk, Fresh, Due, SummaryRank;
    var g' := g.(summaryIndex := g.deferredSummaryIndex, summary := g.deferredSummary, deferredSummary := {});
    assert forall v: nat :: Holds(g', v) <==> Holds(g, v);
    assert forall t: nat :: Held(g', t) <==> Held(g, t);
  }

  lemma ActivateDeferred<F>(run: Run, s: Shared, g: Guard, storage: seq<Option<F>>, polls: seq<nat>, last: int,
                            step: int)
    requires Progress(run, s, g, {}, storage, polls, last, step) && g.current == {}
    ensures Progress(run, s, g.(currentWord := g.deferredWord, current := g.deferred, deferred := {}),
                     {}, storage, polls, last, step)
  {
    hide Ready, Announced, PollsOk, Fresh, Due, SummaryRank;
    var g' := g.(currentWord := g.deferredWord, current := g.deferred, deferred := {});
    assert forall v: nat :: Holds(g', v) <==> Holds(g, v);
    assert forall t: nat :: Held(g', t) <==> Held(g, t);
  }

  // ---- Visiting one bit ------------------------------------------------------------------------------------

  function Dropped(g: Guard, b: nat): Guard {
    g.(current := g.current - {b})
  }

  lemma VisitEnv(s: Shared, g: Guard, capacity: nat, b: nat)
    requires Env(s, g, {}, capacity) && b in g.current && b < WORD_BITS
    ensures Env(s.(log := s.log + [Visit(Slot(g.currentWord, b))]), Dropped(g, b), {}, capacity)
  {
    hide Ready, Fresh, Due, Announced;
    var slot := Slot(g.currentWord, b);
    var s' := s.(log := s.log + [Visit(slot)]);
    var g' := Dropped(g, b);
    assert forall t: nat :: Ready(s', t) <==> Ready(s, t) by { SameBits(s, s'); }
    assert Held(g, slot) && !Held(g', slot);
    forall t: nat ensures t != slot ==> (Held(g', t) <==> Held(g, t)) {
      if WordOf(t) == g.currentWord && BitOf(t) == b { assert t == slot; }
    }
    forall t: nat ensures (Due(s'.log, t) <==> Ready(s', t) || Held(g', t)) && (Fresh(s'.log, t) ==> Ready(s', t))
      ensures Held(g', t) && Ready(s', t) ==> Fresh(s'.log, t)
    {
      LogStep(s.log, Visit(slot), t);
    }
    SameBits(s, s');
    assert forall v: nat :: Holds(g', v) <==> Holds(g, v);
  }

  lemma SameBits(s: Shared, s': Shared)
    requires s.words == s'.words && s.summary == s'.summary
    ensures forall t: nat :: Ready(s', t) <==> Ready(s, t)
    ensures forall w: nat :: Announced(s', w) <==> Announced(s, w)
  {
  }

  /** A visit that polls (`again` is what the slot holds afterwards) or finds the
      slot stale. */
  lemma VisitProgress<F>(run: Run, s: Shared, g: Guard, b: nat, storage: seq<Option<F>>, storage': seq<Option<F>>,
                         polls: seq<nat>, polls': seq<nat>, last: int, step: int)
    requires Progress(run, s, g, {}, storage, polls, last, step) && b in g.current && b < WORD_BITS
    requires var slot := Slot(g.currentWord, b);
      && slot < run.capacity && Distance(run, slot) > last && |storage'| == |storage|
      && (forall i :: 0 <= i < |storage| && i != slot ==> storage'[i] == storage[i])
      && (if storage[slot].None? then polls' == polls && storage' == storage
          else polls' == polls + [slot] && |polls| < run.limit)
    ensures var slot := Slot(g.currentWord, b);
      Progress(run, s.(log := s.log + [Visit(slot)]), Dropped(g, b), {}, storage', polls', Distance(run, slot), step)
  {
    hide Env, Ready, Announced, SummaryRank;
    var slot := Slot(g.currentWord, b);
    var s' := s.(log := s.log + [Visit(slot)]);
    var g' := Dropped(g, b);
    VisitEnv(s, g, run.capacity, b);
    SameBits(s, s');
    forall t: nat ensures t != slot ==> (Held(g', t) <==> Held(g, t)) {
      if WordOf(t) == g.currentWord && BitOf(t) == b { assert t == slot; }
    }
    assert Held(g, slot) && forall t: nat :: Held(g', t) ==> Held(g, t);
    assert forall v: nat :: Holds(g', v) <==> Holds(g, v);
    if polls' != polls { assert polls'[|polls|] == slot && slot in polls'; }
    assert forall y :: y in polls ==> y in polls';
    forall y | y in run.targets && y !in polls'
      ensures y < run.capacity && storage'[y].Some? && Reachable(run, s', g', {}, y, step)
    {
      assert y != slot;
    }
  }

  // ---- Giving back what the cap left ---------------------------------------------------------------------------

  /** While restoring: a slot owed a poll has its bit set or in hand. */
  ghost predicate Kept<F>(run: Run, s: Shared, g: Guard, hand: set<nat>, storage: seq<Option<F>>, polls: seq<nat>,
                          last: int) {
    && Env(s, g, hand, run.capacity) && PollsOk(run, polls, last) && RungOk(run, s, g, hand, polls)
    && VisitsOk(run, s, storage, polls) && |storage| == run.capacity
    && (forall y :: y in run.targets && y !in polls ==>
          y < run.capacity && storage[y].Some? && (Ready(s, y) || Held(g, y)))
  }

  lemma ProgressKept<F>(run: Run, s: Shared, g: Guard, storage: seq<Option<F>>, polls: seq<nat>, last: int, step: int)
    requires Progress(run, s, g, {}, storage, polls, last, step)
    ensures Kept(run, s, g, {}, storage, polls, last)
  {
  }

  lemma GrewKept<F>(run: Run, s: Shared, s': Shared, g: Guard, hand: set<nat>, storage: seq<Option<F>>,
                    polls: seq<nat>, last: int)
    requires Kept(run, s, g, hand, storage, polls, last) && Env(s', g, hand, run.capacity) && Grew(s, s')
    ensures Kept(run, s', g, hand, storage, polls, last)
  {
  }

  function BitsRestored(s: Shared, w: nat, bits: set<nat>): Shared
    requires w < |s.words|
  {
    s.(words := s.words[w := s.words[w] + bits])
  }

  /** The guard gives up exactly the bits `bits` of word `w`. */
  ghost predicate GaveBits(g: Guard, g': Guard, w: nat, bits: set<nat>) {
    && (forall t: nat :: Held(g, t) <==> Held(g', t) || (WordOf(t) == w && BitOf(t) in bits))
    && (forall t: nat :: WordOf(t) == w && BitOf(t) in bits ==> !Held(g', t))
    && g'.summaryIndex == g.summaryIndex && g'.summary == g.summary
    && g'.deferredSummaryIndex == g.deferredSummaryIndex && g'.deferredSummary == g.deferredSummary
  }

  lemma BitsRestoredReady(s: Shared, w: nat, bits: set<nat>)
    requires w < |s.words|
    ensures var s' := BitsRestored(s, w, bits);
      && (forall t: nat :: Ready(s', t) <==> Ready(s, t) || (WordOf(t) == w && BitOf(t) in bits))
      && (forall v: nat :: Announced(s', v) <==> Announced(s, v))
  {
  }

  /** The word's previous contents decide who announces it. */
  function RestoreHand(s: Shared, w: nat): set<nat>
    requires w < |s.words|
  {
    if s.words[w] == {} then {w} else {}
  }

  lemma BitsRestoredKept<F>(run: Run, s: Shared, g: Guard, g': Guard, w: nat, bits: set<nat>,
                            storage: seq<Option<F>>, polls: seq<nat>, last: int)
    requires Kept(run, s, g, {}, storage, polls, last) && w < |s.words| && bits != {}
    requires GaveBits(g, g', w, bits) && GuardInRange(g', run.capacity) && GuardSplit(g')
    requires forall b :: b in bits ==> b < WORD_BITS && Slot(w, b) < run.capacity
    ensures Kept(run, BitsRestored(s, w, bits), g', RestoreHand(s, w), storage, polls, last)
  {
    hide Held, Ready, Fresh, Due, Announced, GuardInRange, GuardSplit, PollsOk;
    var s' := BitsRestored(s, w, bits);
    BitsRestoredReady(s, w, bits);
    assert forall v: nat :: Holds(g', v) <==> Holds(g, v);
    assert InRange(s', run.capacity);
    assert LogOk(s', g');
    BitsRestoredCovered(s, g, g', w, bits);
    var b :| b in bits;
    assert Held(g, Slot(w, b));
    assert forall v: nat :: Rung(run, s, v) ==> Rung(run, s', v);
  }

  lemma BitsRestoredCovered(s: Shared, g: Guard, g': Guard, w: nat, bits: set<nat>)
    requires Covered(s, g, {}) && w < |s.words|
    requires forall v: nat :: Holds(g', v) <==> Holds(g, v)
    ensures Covered(BitsRestored(s, w, bits), g', RestoreHand(s, w))
  {
  }

  /** The owner's own announcement of a word it restored. */
  lemma OwnAnnounceKept<F>(run: Run, s: Shared, g: Guard, w: nat, storage: seq<Option<F>>, polls: seq<nat>, last: int)
    requires Kept(run, s, g, {w}, storage, polls, last) && w < |s.words|
    ensures |s.summary| > 0 ==> WordOf(w) < |s.summary|
    ensures Kept(run, SetSummary(s, w), g, {}, storage, polls, last)
  {
    hide Held, Ready, Announced, PollsOk, GuardInRange, GuardSplit, LogOk, Covered;
    assert Covered(s, g, {} + {w}) by { assert {} + {w} == {w}; }
    SetSummaryKeeps(s, g, {}, run.capacity, w);
    SetSummaryAnnounced(s, w);
    assert forall v: nat :: Rung(run, s, v) ==> Rung(run, SetSummary(s, w), v);
  }

  function AnnouncementsRestored(s: Shared, i: nat, ws: set<nat>): Shared
    requires i < |s.summary|
  {
    s.(summary := s.summary[i := s.summary[i] + ws])
  }

  /** The guard gives up exactly the announcements `ws` of summary word `i`. */
  ghost predicate GaveAnnouncements(g: Guard, g': Guard, i: nat, ws: set<nat>) {
    && (forall w: nat :: Holds(g, w) <==> Holds(g', w) || (WordOf(w) == i && BitOf(w) in ws))
    && g'.currentWord == g.currentWord && g'.current == g.current
    && g'.deferredWord == g.deferredWord && g'.deferred == g.deferred
  }

  lemma AnnouncementsRestoredBits(s: Shared, i: nat, ws: set<nat>)
    requires i < |s.summary|
    ensures var s' := AnnouncementsRestored(s, i, ws);
      && (forall t: nat :: Ready(s', t) <==> Ready(s, t))
      && (forall w: nat :: Announced(s', w) <==> Announced(s, w) || (WordOf(w) == i && BitOf(w) in ws))
  {
  }

  lemma AnnouncementsRestoredKept<F>(run: Run, s: Shared, g: Guard, g': Guard, i: nat, ws: set<nat>,
                                     storage: seq<Option<F>>, polls: seq<nat>, last: int)
    requires Kept(run, s, g, {}, storage, polls, last) && i < |s.summary|
    requires GaveAnnouncements(g, g', i, ws) && GuardInRange(g', run.capacity)
    requires forall b :: b in ws ==> b < WORD_BITS && Slot(i, b) < |s.words|
    ensures Kept(run, AnnouncementsRestored(s, i, ws), g', {}, storage, polls, last)
  {
    hide Ready, Fresh, Due, Announced, Holds, GuardInRange, PollsOk;
    var s' := AnnouncementsRestored(s, i, ws);
    AnnouncementsRestoredBits(s, i, ws);
    assert forall t: nat :: Held(g', t) <==> Held(g, t);
    assert forall v: nat :: Rung(run, s, v) ==> Rung(run, s', v);
  }

  // ---- The ends of a harvest ------------------------------------------------------------------------------------

  ghost predicate GuardEmpty(g: Guard) {
    g.summary == {} && g.deferredSummary == {} && g.current == {} && g.deferred == {}
  }

  lemma EmptyGuardEnv(s: Shared, g: Guard, g': Guard, capacity: nat)
    requires GuardEmpty(g) && GuardEmpty(g') && Env(s, g, {}, capacity)
    ensures Env(s, g', {}, capacity)
    ensures forall t: nat :: !Held(g, t)
    ensures forall w: nat :: !Holds(g, w)
  {
  }

  /** A harvest that ran to its end has polled every slot it owed. */
  lemma RunsOut<F>(run: Run, s: Shared, g: Guard, storage: seq<Option<F>>, polls: seq<nat>, last: int, step: int)
    requires Progress(run, s, g, {}, storage, polls, last, step) && GuardEmpty(g)
    requires step >= |s.summary| - 1
    ensures forall y :: y in run.targets ==> y in polls
    ensures Env(s, NO_GUARD, {}, run.capacity) && VisitsOk(run, s, storage, polls)
  {
    hide Fresh, Due, Ready;
    EmptyGuardEnv(s, g, NO_GUARD, run.capacity);
    forall y | y in run.targets ensures y in polls {
    }
  }

  lemma EndsKept<F>(run: Run, s: Shared, g: Guard, storage: seq<Option<F>>, polls: seq<nat>, last: int)
    requires Kept(run, s, g, {}, storage, polls, last) && GuardEmpty(g)
    ensures forall y :: y in run.targets && y !in polls ==> y < |storage| && storage[y].Some? && Ready(s, y)
    ensures Env(s, NO_GUARD, {}, run.capacity) && VisitsOk(run, s, storage, polls)
  {
    hide Fresh, Due, Ready;
    EmptyGuardEnv(s, g, NO_GUARD, run.capacity);
  }

  // ---- Order ------------------------------------------------------------------------------------------------------

  function Words(run: Run): nat { WordsFor(run.capacity) }

  /** Everything of a higher rank is past `last`. */
  ghost predicate RankPassed(run: Run, last: int, r: int)
    requires RunOk(run)
  {
    forall i: nat :: i < run.capacity && WordOf(i) < Words(run) ==>
      SlotRank(run.start, i, Words(run)) > r ==> Distance(run, i) > last
  }

  /** The bits in hand are of rank `r` and past `last`. */
  ghost predicate CurrentAt(run: Run, g: Guard, last: int, r: int)
    requires RunOk(run)
  {
    forall b :: b in g.current ==>
      && b < WORD_BITS && Slot(g.currentWord, b) < run.capacity && g.currentWord < Words(run)
      && SlotRank(run.start, Slot(g.currentWord, b), Words(run)) == r && Distance(run, Slot(g.currentWord, b)) > last
  }

  lemma VisitCurrent(run: Run, g: Guard, last: int, r: int, b: nat)
    requires RunOk(run) && CurrentAt(run, g, last, r)
    requires b in g.current && b < WORD_BITS && forall c :: c in g.current ==> b <= c
    ensures CurrentAt(run, Dropped(g, b), Distance(run, Slot(g.currentWord, b)), r)
  {
  }

  lemma VisitPassed(run: Run, last: int, r: int, slot: nat)
    requires RunOk(run) && slot < run.capacity && WordOf(slot) < Words(run)
    requires SlotRank(run.start, slot, Words(run)) == r
    ensures RankPassed(run, Distance(run, slot), r)
  {
  }

  /** Visiting the lowest bit in hand moves on in circular order. */
  lemma VisitOrder(run: Run, g: Guard, last: int, r: int)
    requires RunOk(run) && CurrentAt(run, g, last, r) && g.current != {}
    ensures var b := TrailingZeros(g.current);
      && b in g.current && b < WORD_BITS && Slot(g.currentWord, b) < run.capacity
      && last < Distance(run, Slot(g.currentWord, b))
      && CurrentAt(run, Dropped(g, b), Distance(run, Slot(g.currentWord, b)), r)
      && RankPassed(run, Distance(run, Slot(g.currentWord, b)), r)
  {
    hide SlotRank, Dist, RankPassed, Distance;
    var any :| any in g.current;
    var b := TrailingZeros(g.current);
    assert any < WORD_BITS;
    VisitCurrent(run, g, last, r, b);
    VisitPassed(run, last, r, Slot(g.currentWord, b));
  }

  /** Everything taken but not scanned, and every summary word not taken, is of a
      higher rank than what has been scanned. */
  ghost predicate GuardAhead(run: Run, g: Guard, r: int, step: int)
    requires RunOk(run)
  {
    var (n, own) := (Words(run), WordOf(run.start));
    && 0 <= r && (g.deferred != {} ==> r < n)
    && (forall b :: b in g.deferred ==> b < WORD_BITS && g.deferredWord == own && Slot(own, b) < run.start)
    && (forall b :: b in g.summary ==>
          b < WORD_BITS && Slot(g.summaryIndex, b) < n && Slot(g.summaryIndex, b) != own
          && Rank(run.start, Slot(g.summaryIndex, b), n) > r)
    && (forall b :: b in g.deferredSummary ==>
          b < WORD_BITS && Slot(g.deferredSummaryIndex, b) < n && Slot(g.deferredSummaryIndex, b) != own
          && Rank(run.start, Slot(g.deferredSummaryIndex, b), n) > r)
    && (n > 1 ==> forall w: nat :: w < n && w != own ==>
          SummaryRank(run.start, WordOf(w), SummariesFor(n)) > step ==> Rank(run.start, w, n) > r)
  }

  /** Which side of the cursor's word the announcements in hand are on. */
  ghost predicate SummaryAt(run: Run, g: Guard, step: int, final: bool)
    requires RunOk(run)
  {
    var (n, own) := (Words(run), WordOf(run.start));
    n > 1 &&
    if final then
      && g.deferredSummary == {} && step >= SummariesFor(n) - 1
      && (forall b :: b in g.summary ==>
           b < WORD_BITS && g.summaryIndex == WordOf(own) && Slot(g.summaryIndex, b) < own)
    else
      && step >= 0
      && (g.summary != {} ==>
           g.summaryIndex < SummariesFor(n) && SummaryRank(run.start, g.summaryIndex, SummariesFor(n)) <= step)
      && (forall b :: b in g.summary ==>
           b < WORD_BITS && (g.summaryIndex == WordOf(own) ==> Slot(g.summaryIndex, b) > own))
      && (forall b :: b in g.deferredSummary ==>
            b < WORD_BITS && g.deferredSummaryIndex == WordOf(own) && Slot(g.deferredSummaryIndex, b) < own)
  }

  lemma LaterWord(run: Run, w: nat, v: nat, step: nat)
    requires RunOk(run) && Words(run) > 1 && w < Words(run) && v < Words(run) && w != WordOf(run.start)
    requires v != WordOf(run.start)
    requires SummaryRank(run.start, WordOf(w), SummariesFor(Words(run))) <= step
    requires WordOf(w) == WordOf(WordOf(run.start)) ==> w > WordOf(run.start)
    requires Later(run.start, v, Words(run), step)
    ensures Rank(run.start, v, Words(run)) > Rank(run.start, w, Words(run))
  {
  }

  /** What is left after going to word `b` ranks higher than it. */
  lemma RestRanksHigher(run: Run, g: Guard, r: int, step: int, final: bool, b: nat)
    requires RunOk(run) && GuardAhead(run, g, r, step) && SummaryAt(run, g, step, final)
    requires b in g.summary && b < WORD_BITS && forall c :: c in g.summary ==> b <= c
    ensures var (n, w) := (Words(run), Slot(g.summaryIndex, b));
      && (forall c :: c in g.summary && c != b ==> Rank(run.start, Slot(g.summaryIndex, c), n) > Rank(run.start, w, n))
      && (forall c :: c in g.deferredSummary ==>
            Rank(run.start, Slot(g.deferredSummaryIndex, c), n) > Rank(run.start, w, n))
      && (forall v: nat :: v < n && v != WordOf(run.start) ==>
            SummaryRank(run.start, WordOf(v), SummariesFor(n)) > step ==> Rank(run.start, v, n) > Rank(run.start, w, n))
  {
    hide Rank, SummaryRank;
    var (n, own) := (Words(run), WordOf(run.start));
    var w := Slot(g.summaryIndex, b);
    forall c | c in g.summary && c != b ensures Rank(run.start, Slot(g.summaryIndex, c), n) > Rank(run.start, w, n) {
      SameSummaryRanks(run.start, w, Slot(g.summaryIndex, c), n);
    }
    if !final {
      forall c | c in g.deferredSummary
        ensures Rank(run.start, Slot(g.deferredSummaryIndex, c), n) > Rank(run.start, w, n)
      {
        LaterWord(run, w, Slot(g.deferredSummaryIndex, c), step);
      }
      forall v: nat | v < n && v != own
        ensures SummaryRank(run.start, WordOf(v), SummariesFor(n)) > step ==>
          Rank(run.start, v, n) > Rank(run.start, w, n)
      {
        if SummaryRank(run.start, WordOf(v), SummariesFor(n)) > step { LaterWord(run, w, v, step); }
      }
    }
  }

  lemma PopSide(run: Run, g: Guard, step: int, final: bool, b: nat)
    requires RunOk(run) && SummaryAt(run, g, step, final)
    ensures SummaryAt(run, g.(summary := g.summary - {b}), step, final)
  {
  }

  /** Going to the lowest announced word in hand moves on in rank. */
  lemma PopOrder(run: Run, g: Guard, r: int, step: int, final: bool)
    requires RunOk(run) && GuardAhead(run, g, r, step) && SummaryAt(run, g, step, final) && g.summary != {}
    ensures var b := TrailingZeros(g.summary);
      && b in g.summary && b < WORD_BITS
      && var w := Slot(g.summaryIndex, b);
      && w < Words(run) && w != WordOf(run.start) && Rank(run.start, w, Words(run)) > r
      && GuardAhead(run, g.(summary := g.summary - {b}), Rank(run.start, w, Words(run)), step)
      && SummaryAt(run, g.(summary := g.summary - {b}), step, final)
  {
    hide Rank, SummaryRank, SummaryAt;
    var any :| any in g.summary;
    assert any < WORD_BITS;
    PopSide(run, g, step, final, TrailingZeros(g.summary));
    RestRanksHigher(run, g, r, step, final, TrailingZeros(g.summary));
  }

  /** A whole word of a higher rank comes in hand. */
  lemma EnterWord(run: Run, g: Guard, last: int, r: int, r': int)
    requires RunOk(run) && RankPassed(run, last, r) && r' > r
    requires forall b :: b in g.current ==> b < WORD_BITS && Slot(g.currentWord, b) < run.capacity
    requires g.currentWord < Words(run)
    requires forall b :: b in g.current && b < WORD_BITS ==>
      SlotRank(run.start, Slot(g.currentWord, b), Words(run)) == r'
    ensures CurrentAt(run, g, last, r') && RankPassed(run, last, r')
  {
  }

  lemma WordRank(run: Run, w: nat, b: nat)
    requires RunOk(run) && w < Words(run) && b < WORD_BITS && w != WordOf(run.start)
    ensures SlotRank(run.start, Slot(w, b), Words(run)) == Rank(run.start, w, Words(run))
  {
  }

  /** The cursor's own word, from the cursor on, is of rank 0; behind it, last. */
  lemma OwnWordRank(run: Run, b: nat)
    requires RunOk(run) && b < WORD_BITS
    ensures var slot := Slot(WordOf(run.start), b);
      && SlotRank(run.start, slot, Words(run)) == (if slot >= run.start then 0 else Words(run))
      && (slot >= run.start <==> b >= BitOf(run.start))
  {
  }

  /** At a cap exit, whatever is owed a poll is past every poll made. */
  lemma OwedIsAhead(run: Run, s: Shared, g: Guard, last: int, r: int, step: int, y: nat)
    requires RunOk(run) && GuardAhead(run, g, r, step) && CurrentAt(run, g, last, r) && RankPassed(run, last, r)
    requires y < run.capacity && Reachable(run, s, g, {}, y, step) && step >= 0
    ensures Distance(run, y) > last
  {
    hide SlotRank, Rank, SummaryRank, Distance, Ready;
    SlotWord(y, run.capacity);
    var (n, w) := (Words(run), WordOf(y));
    assert Slot(w, BitOf(y)) == y;
    if Held(g, y) {
      if !(w == g.currentWord && BitOf(y) in g.current) { OwnWordRank(run, BitOf(y)); }
    } else {
      OwedWord(run, s, g, r, step, y);
      WordRank(run, w, BitOf(y));
    }
  }

  lemma OwedWord(run: Run, s: Shared, g: Guard, r: int, step: int, y: nat)
    requires RunOk(run) && GuardAhead(run, g, r, step) && step >= 0
    requires y < run.capacity && WordOf(y) < Words(run)
    requires Holds(g, WordOf(y)) || Untaken(run, s, y, step)
    ensures WordOf(y) != WordOf(run.start) && Rank(run.start, WordOf(y), Words(run)) > r
  {
    hide Rank, Announced;
    var w := WordOf(y);
    assert Slot(WordOf(w), BitOf(w)) == w;
  }

  // ---- Moving through the scan ------------------------------------------------------------------------------------

  /** The next summary word in rotation comes in hand whole. */
  lemma NextSummaryAhead(run: Run, g: Guard, r: int, step: int, i: nat, bits: set<nat>)
    requires RunOk(run) && GuardAhead(run, g, r, step) && SummaryAt(run, g, step, false) && g.summary == {}
    requires i < SummariesFor(Words(run)) && SummaryRank(run.start, i, SummariesFor(Words(run))) == step + 1
    requires forall b :: b in bits ==> b < WORD_BITS && Slot(i, b) < Words(run)
    ensures var g' := g.(summaryIndex := i, summary := bits);
      GuardAhead(run, g', r, step + 1) && SummaryAt(run, g', step + 1, false)
  {
  }

  /** The cursor's own summary word comes in hand split, without the cursor's own
      word. */
  lemma FirstSummaryAhead(run: Run, g: Guard)
    requires RunOk(run) && Words(run) > 1
    requires g.summaryIndex == WordOf(WordOf(run.start)) && g.deferredSummaryIndex == g.summaryIndex
    requires forall b :: b in g.summary ==>
      BitOf(WordOf(run.start)) < b < WORD_BITS && Slot(g.summaryIndex, b) < Words(run)
    requires forall b :: b in g.deferredSummary ==>
      b < BitOf(WordOf(run.start)) && Slot(g.deferredSummaryIndex, b) < Words(run)
    requires g.deferred != {} ==> g.deferredWord == WordOf(run.start)
    requires forall b :: b in g.deferred ==> b < BitOf(run.start)
    ensures GuardAhead(run, g, 0, 0) && SummaryAt(run, g, 0, false)
  {
    var own := WordOf(run.start);
    assert Slot(WordOf(own), BitOf(own)) == own;
    forall b | b in g.deferred ensures b < WORD_BITS && Slot(own, b) < run.start {
      OwnWordRank(run, b);
    }
  }

  lemma LastSummaryAhead(run: Run, g: Guard, r: int, step: int)
    requires RunOk(run) && GuardAhead(run, g, r, step) && SummaryAt(run, g, step, false) && g.summary == {}
    requires step == SummariesFor(Words(run)) - 1
    ensures var g' := g.(summaryIndex := g.deferredSummaryIndex, summary := g.deferredSummary, deferredSummary := {});
      GuardAhead(run, g', r, step) && SummaryAt(run, g', step, true)
  {
  }

  /** The bits behind the cursor come in hand last. */
  lemma DeferredLast(run: Run, g: Guard, last: int, r: int, step: int)
    requires RunOk(run) && GuardAhead(run, g, r, step) && RankPassed(run, last, r) && g.current == {}
    requires forall b :: b in g.deferred ==> Slot(g.deferredWord, b) < run.capacity
    requires g.summary == {} && g.deferredSummary == {} && step >= SummariesFor(Words(run)) - 1
    ensures var g' := g.(currentWord := g.deferredWord, current := g.deferred, deferred := {});
      && CurrentAt(run, g', last, Words(run)) && RankPassed(run, last, Words(run))
      && GuardAhead(run, g', Words(run), step)
  {
  }

  lemma SplitTooksWord(s: Shared, g: Guard, w: nat, low: nat)
    requires w < |s.words| && low <= WORD_BITS && g.current == {} && g.deferred == {}
    requires forall b :: b in s.words[w] ==> b < WORD_BITS
    ensures var g' := g.(deferredWord := w, deferred := Below(s.words[w], low),
                         currentWord := w, current := s.words[w] - Below(s.words[w], low));
      TookWord(s, g, g', w) && GuardSplit(g')
  {
  }

  lemma WholeTooksWord(s: Shared, g: Guard, w: nat)
    requires w < |s.words| && g.current == {} && (g.deferred != {} ==> g.deferredWord != w)
    ensures var g' := g.(currentWord := w, current := s.words[w]);
      TookWord(s, g, g', w) && GuardSplit(g')
  {
  }

  lemma SplitTooksSummary(s: Shared, g: Guard, i: nat, low: nat)
    requires i < |s.summary| && g.summary == {} && g.deferredSummary == {}
    ensures var g' := g.(deferredSummaryIndex := i, deferredSummary := Below(s.summary[i], low),
                         summaryIndex := i, summary := s.summary[i] - Below(s.summary[i], low));
      TookSummary(s, g, g', i)
  {
  }

  lemma WholeTooksSummary(s: Shared, g: Guard, i: nat)
    requires i < |s.summary| && g.summary == {}
    ensures TookSummary(s, g, g.(summaryIndex := i, summary := s.summary[i]), i)
  {
  }

  lemma CursorMoves(run: Run, i: nat)
    requires RunOk(run) && i < run.capacity
    ensures Wrap(run.start + Distance(run, i) + 1, run.capacity) == if i + 1 == run.capacity then 0 else i + 1
  {
  }

  // ---- Masks ------------------------------------------------------------------------------------------------------

  function LowMask(n: nat): (mask: set<nat>)
    ensures forall b: nat :: b in mask <==> b < n
  {
    if n == 0 then {} else LowMask(n - 1) + {n - 1}
  }

  /** The bits of a word that name real members of a set of `n`. */
  function ValidMask(n: nat, word: nat): set<nat> {
    if word + 1 == WordsFor(n) && n % WORD_BITS != 0 then LowMask(n % WORD_BITS) else LowMask(WORD_BITS)
  }

  /** No mask drops a bit: every bit ever set names a real member. */
  lemma MaskKeepsAll(bits: set<nat>, n: nat, word: nat)
    requires forall b :: b in bits ==> b < WORD_BITS && Slot(word, b) < n
    ensures bits * ValidMask(n, word) == bits
  {
  }
}
