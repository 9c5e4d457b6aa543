/** When a shard ends leaving work behind, told from the state its last turn starts
    in: each waiting key's queue is walked the way the one pass over the classes
    walks it. */
module ShardEnding {
  import opened Options
  import opened Sequences
  import opened Book
  import opened BookInvariant
  import opened ShardEffects
  import opened ShardSteps
  import opened ShardLaws
  import opened ShardTurns
  import opened ShardClosing

  // ---- A key's walk ----------------------------------------------------------------------------

  /** Where the pass leaves a key: an item of it runs, all of its queue is discarded,
      or it stays in a ring the pass will not come to again. */
  datatype Outlook = Runs | Empties | Stranded

  predicate Budgeted(cfg: Config, c: nat) {
    c < |cfg.maxInflight| && cfg.maxInflight[c] > 0
  }

  /** A queue whose head is of the class the pass has come to. The due heads of that
      class go; then an item of the class runs, a later class is walked in its turn,
      and an earlier one is too late. A class with no budget is not looked at. */
  function Walk<P>(queue: seq<Item<P>>, cfg: Config, now: nat): Outlook
    requires queue != []
    decreases |queue|
  {
    var c := queue[0].cls;
    var n := ExpiredHeads(queue, c, now);
    if !Budgeted(cfg, c) then Stranded
    else if n == |queue| then Empties
    else if queue[n].cls == c then Runs
    else if queue[n].cls < c then Stranded
    else Walk(queue[n..], cfg, now)
  }

  /** What a pass that has come to class `from` makes of a key that is not out. */
  function OutlookOf<P, S>(slot: Slot<P, S>, cfg: Config, from: nat, now: nat): Outlook {
    if slot.queue == [] then Empties
    else if slot.queue[0].cls < from then Stranded
    else Walk(slot.queue, cfg, now)
  }

  /** Nothing is in flight, and everything waiting is in the ring of its head. */
  ghost predicate Resting<K, P, S>(b: Book<K, P, S>, cfg: Config) {
    && Inv(b, cfg) && b.running == map[]
    && (forall k :: k in b.slots ==> b.slots[k].presence.Idle? || b.slots[k].presence.Ready?)
  }

  /** The same keys with the same states, and the same outlook from `from` on. */
  ghost predicate SameOutlooks<K, P, S>(b: Book<K, P, S>, b': Book<K, P, S>, cfg: Config, from: nat, from': nat,
                                        now: nat) {
    && b'.slots.Keys == b.slots.Keys
    && (forall k :: k in b.slots ==>
          && b'.slots[k].resident == b.slots[k].resident
          && OutlookOf(b'.slots[k], cfg, from', now) == OutlookOf(b.slots[k], cfg, from, now))
  }

  ghost predicate SomeKey<K, P, S>(b: Book<K, P, S>, cfg: Config, from: nat, now: nat, o: Outlook) {
    exists k :: k in b.slots && OutlookOf(b.slots[k], cfg, from, now) == o
  }

  lemma RestingFacts<K, P, S>(b: Book<K, P, S>, cfg: Config)
    requires Resting(b, cfg)
    ensures Drainable(b) && |b.ready| == |b.inflight| == |cfg.maxInflight|
    ensures forall c :: 0 <= c < |b.inflight| ==> b.inflight[c] == 0
    ensures forall k :: k in b.slots ==>
      && (b.slots[k].queue == [] <==> b.slots[k].presence.Idle?)
      && (b.slots[k].queue != [] ==> b.slots[k].queue[0].cls < |b.ready| && k in b.ready[b.slots[k].queue[0].cls])
    ensures forall c, k :: 0 <= c < |b.ready| && k in b.ready[c] ==>
      k in b.slots && b.slots[k].queue != [] && b.slots[k].queue[0].cls == c
  {
    hide CountsOk, StateOk;
    InvDrainable(b, cfg, {});
    assert forall c :: RunningIn(b.running, c) == {};
    forall k | k in b.slots ensures b.slots[k].queue == [] <==> b.slots[k].presence.Idle? {
    }
  }

  lemma PlaceShape<K, P, S>(b: Book<K, P, S>, key: K, now: nat)
    requires key in b.slots && (b.slots[key].queue != [] ==> b.slots[key].queue[0].cls < |b.ready|)
    ensures var b' := Place(b, key, now);
      && b'.slots.Keys == b.slots.Keys && b'.running == b.running
      && (forall k :: k in b.slots && k != key ==> b'.slots[k] == b.slots[k])
      && b'.slots[key].queue == b.slots[key].queue && b'.slots[key].resident == b.slots[key].resident
      && (b'.slots[key].presence.Idle? || b'.slots[key].presence.Ready?)
  {
  }

  /** The walk once the due heads of the class the pass is at are gone. */
  lemma WalkOn<P, S>(slot: Slot<P, S>, slot': Slot<P, S>, cfg: Config, cls: nat, now: nat)
    requires slot.queue != [] && slot.queue[0].cls == cls && Budgeted(cfg, cls)
    requires slot'.queue == slot.queue[ExpiredHeads(slot.queue, cls, now)..]
    requires slot'.queue != [] ==> slot'.queue[0].cls != cls
    ensures OutlookOf(slot', cfg, cls, now) == OutlookOf(slot, cfg, cls, now)
  {
  }

  /** One front key of a class with budget: an item of it runs, or its outlook and
      everyone else's are what they were. */
  lemma FrontOutlook<K(!new), P, S>(b: Book<K, P, S>, cfg: Config, cls: nat, now: nat)
    requires Resting(b, cfg) && Budgeted(cfg, cls) && cls < |b.ready| && b.ready[cls] != []
    ensures Drainable(b)
    ensures var (b', d) := TakeFront(b, cls, now);
      && (d.Some? ==> SomeKey(b, cfg, cls, now, Runs))
      && (d.None? ==> Resting(b', cfg) && SameOutlooks(b, b', cfg, cls, cls, now))
  {
    hide InvHeld, ExpiredHeads, Place;
    RestingFacts(b, cfg);
    TakeFrontParts(b, cls, now);
    FrontHead(b, cfg, cls);
    var key := b.ready[cls][0];
    var q := b.slots[key].queue;
    var n := ExpiredHeads(q, cls, now);
    assert OutlookOf(b.slots[key], cfg, cls, now) == Walk(q, cfg, now);
    if TakeFront(b, cls, now).1.None? {
      TakeFrontKeeps(b, cfg, cls, now);
      var rest := Expire(b.(ready := b.ready[cls := b.ready[cls][1..]]), key, n);
      PlaceShape(rest, key, now);
      WalkOn(b.slots[key], TakeFront(b, cls, now).0.slots[key], cfg, cls, now);
    }
  }

  lemma SameThen<K(!new), P, S>(a: Book<K, P, S>, b: Book<K, P, S>, c: Book<K, P, S>, cfg: Config,
                                i: nat, j: nat, k: nat, now: nat)
    requires SameOutlooks(a, b, cfg, i, j, now)
    ensures SameOutlooks(b, c, cfg, j, k, now) ==> SameOutlooks(a, c, cfg, i, k, now)
    ensures SomeKey(b, cfg, j, now, Runs) ==> SomeKey(a, cfg, i, now, Runs)
  {
    hide OutlookOf;
    if SomeKey(b, cfg, j, now, Runs) {
      var x :| x in b.slots && OutlookOf(b.slots[x], cfg, j, now) == Runs;
      assert x in a.slots && OutlookOf(a.slots[x], cfg, i, now) == Runs;
    }
  }

  // ---- The pass ----------------------------------------------------------------------------------

  lemma {:induction false} DrainOutlook<K(!new), P, S>(b: Book<K, P, S>, cfg: Config, cls: nat, now: nat)
    requires Resting(b, cfg) && Budgeted(cfg, cls)
    ensures Drainable(b) && cls < |b.ready|
    ensures var (b', d) := Drain(b, cls, now);
      && (d.Some? ==> SomeKey(b, cfg, cls, now, Runs))
      && (d.None? ==>
           Resting(b', cfg) && SameOutlooks(b, b', cfg, cls, cls, now) && cls < |b'.ready| && b'.ready[cls] == [])
    decreases |b.ready[cls]|
  {
    hide Resting, TakeFront, OutlookOf, SomeKey, SameOutlooks, Drainable;
    RestingFacts(b, cfg);
    if b.ready[cls] == [] {
      SameAsIs(b, cfg, cls, now);
    } else {
      TakeFrontShrinks(b, cls, now);
      FrontOutlook(b, cfg, cls, now);
      var (b1, d) := TakeFront(b, cls, now);
      if d.None? {
        DrainOutlook(b1, cfg, cls, now);
        SameThen(b, b1, Drain(b1, cls, now).0, cfg, cls, cls, cls, now);
      }
    }
  }

  lemma SameAsIs<K(!new), P, S>(b: Book<K, P, S>, cfg: Config, from: nat, now: nat)
    ensures SameOutlooks(b, b, cfg, from, from, now)
  {
  }

  /** Once a class is done with, its ring is empty or its keys are stranded. */
  lemma PassedOn<K(!new), P, S>(b: Book<K, P, S>, cfg: Config, cls: nat, now: nat)
    requires Resting(b, cfg) && cls < |b.ready| && (Budgeted(cfg, cls) ==> b.ready[cls] == [])
    ensures SameOutlooks(b, b, cfg, cls, cls + 1, now)
  {
    hide Resting;
    RestingFacts(b, cfg);
  }

  lemma NextOutlook<K(!new), P, S>(b: Book<K, P, S>, cfg: Config, cls: nat, now: nat)
    requires Resting(b, cfg) && cls < |cfg.maxInflight|
    ensures Drainable(b) && |b.ready| == |cfg.maxInflight|
    ensures var (b', d) := Next(b, cfg, cls, now);
      && (d.Some? ==> SomeKey(b, cfg, cls, now, Runs))
      && (d.None? ==> Resting(b', cfg) && SameOutlooks(b, b', cfg, cls, cls + 1, now))
  {
    hide Resting, SomeKey, SameOutlooks, Drain, Drainable;
    RestingFacts(b, cfg);
    if Budgeted(cfg, cls) {
      DrainOutlook(b, cfg, cls, now);
      var (b', d) := Drain(b, cls, now);
      if d.None? {
        PassedOn(b', cfg, cls, now);
        SameThen(b, b', b', cfg, cls, cls, cls + 1, now);
      }
    } else {
      PassedOn(b, cfg, cls, now);
    }
  }

  lemma {:induction false} FillKeepsJobs<K(!new), I(!new), W, S>(r: Reactor<K, I, W, S>, l: Limits, cls: nat, now: nat)
    requires Good(r, l) && cls < |r.book.ready| && r.jobs != map[]
    ensures Fill(r, l, cls, now).jobs != map[]
    decreases Budget(r.book, l.cfg, cls)
  {
    hide Good, Next, Budget;
    NextShard(r, l, cls, now);
    NextSpends(r, l, cls, now);
    if Next(r.book, l.cfg, cls, now).1.Some? { FillKeepsJobs(Served(r, l, cls, now), l, cls, now); }
  }

  lemma FillOutlook<K(!new), I(!new), W, S>(r: Reactor<K, I, W, S>, l: Limits, cls: nat, now: nat)
    requires Good(r, l) && cls < |r.book.ready| == |l.cfg.maxInflight| && Resting(r.book, l.cfg) && r.jobs == map[]
    ensures var r' := Fill(r, l, cls, now);
      if r'.jobs == map[] then Resting(r'.book, l.cfg) && SameOutlooks(r.book, r'.book, l.cfg, cls, cls + 1, now)
      else SomeKey(r.book, l.cfg, cls, now, Runs)
  {
    hide Good, Resting, Next, SomeKey, SameOutlooks, Budget;
    NextShard(r, l, cls, now);
    NextSpends(r, l, cls, now);
    NextOutlook(r.book, l.cfg, cls, now);
    if Next(r.book, l.cfg, cls, now).1.Some? { FillKeepsJobs(Served(r, l, cls, now), l, cls, now); }
  }

  lemma {:induction false} FillFromKeepsJobs<K(!new), I(!new), W, S>(r: Reactor<K, I, W, S>, l: Limits, cls: nat,
                                                                     now: nat)
    requires Good(r, l) && cls <= |l.cfg.maxInflight| && r.jobs != map[]
    ensures FillFrom(r, l, cls, now).jobs != map[]
    decreases |l.cfg.maxInflight| - cls
  {
    hide Good, Fill;
    RingCount(r, l);
    if cls < |l.cfg.maxInflight| {
      FillKeepsJobs(r, l, cls, now);
      FillFromKeepsJobs(Fill(r, l, cls, now), l, cls + 1, now);
    }
  }

  /** The whole pass, from a shard with nothing out. */
  lemma {:induction false} PassOutlook<K(!new), I(!new), W, S>(r: Reactor<K, I, W, S>, l: Limits, cls: nat, now: nat)
    requires Good(r, l) && cls <= |l.cfg.maxInflight| && Resting(r.book, l.cfg) && r.jobs == map[]
    ensures var r' := FillFrom(r, l, cls, now);
      if r'.jobs == map[] then
        Resting(r'.book, l.cfg) && SameOutlooks(r.book, r'.book, l.cfg, cls, |l.cfg.maxInflight|, now)
      else SomeKey(r.book, l.cfg, cls, now, Runs)
    decreases |l.cfg.maxInflight| - cls
  {
    hide Good, Fill, Resting, SomeKey, SameOutlooks;
    RingCount(r, l);
    if cls == |l.cfg.maxInflight| {
      SameAsIs(r.book, l.cfg, cls, now);
    } else {
      FillOutlook(r, l, cls, now);
      var r1 := Fill(r, l, cls, now);
      if r1.jobs == map[] {
        PassOutlook(r1, l, cls + 1, now);
        SameThen(r.book, r1.book, FillFrom(r1, l, cls + 1, now).book, l.cfg, cls, cls + 1, |l.cfg.maxInflight|, now);
      } else {
        FillFromKeepsJobs(r1, l, cls + 1, now);
      }
    }
  }

  /** At the end of the pass whatever is still queued is stranded. */
  lemma PassOver<K(!new), P, S>(b: Book<K, P, S>, cfg: Config, now: nat, k: K)
    requires Resting(b, cfg) && k in b.slots
    ensures OutlookOf(b.slots[k], cfg, |cfg.maxInflight|, now) == if b.slots[k].queue == [] then Empties else Stranded
    ensures k in b.idle <==> b.slots[k].queue == []
  {
    hide AccountsOk;
    RestingFacts(b, cfg);
  }

  // ---- The last turn -------------------------------------------------------------------------------

  lemma QuietRests<K(!new), I(!new), W, S>(r: Reactor<K, I, W, S>, l: Limits)
    requires Good(r, l) && r.jobs == map[] && r.staged == []
    ensures Resting(r.book, l.cfg)
  {
    hide Inv, LiveOk, JobsOk, CountsMatch;
    QuietKeys(r, l);
  }

  /** A turn begins quiet exactly when it comes to one quiet and the pass runs nothing. */
  lemma BeginsQuiet<K(!new), I(!new), W, S>(r: Reactor<K, I, W, S>, l: Limits, now: nat)
    requires Good(r, l)
    ensures Quiet(Begin(r, l, now)) <==> Quiet(r) && !SomeKey(r.book, l.cfg, 0, now, Runs)
    ensures Begin(r, l, now).finalFlush == r.finalFlush
    ensures Quiet(Begin(r, l, now)) ==>
      Resting(Begin(r, l, now).book, l.cfg) &&
        SameOutlooks(r.book, Begin(r, l, now).book, l.cfg, 0, |l.cfg.maxInflight|, now)
  {
    hide Good, FillFrom, Resting, SameOutlooks, OutlookOf;
    var filled := FillFrom(r, l, 0, now);
    var shed := Shed(filled, l);
    var begun := StartFlushes(shed, l);
    StartsNothing(shed, l);
    if r.jobs != map[] {
      FillFromKeepsJobs(r, l, 0, now);
    } else if r.staged == [] {
      QuietRests(r, l);
      PassOutlook(r, l, 0, now);
      if filled.jobs == map[] {
        NobodyRuns(r.book, filled.book, l.cfg, now);
        SameButDiscards(r.book, filled.book, begun.book, l.cfg, now);
      }
    }
  }

  /** Flushes start whenever something is staged and nothing else is out. */
  lemma {:induction false} StartsNothing<K(!new), I(!new), W, S>(r: Reactor<K, I, W, S>, l: Limits)
    requires Good(r, l)
    ensures var r' := StartFlushes(r, l);
      && r'.book == r.book && r'.open == r.open && r'.finalFlush == r.finalFlush
      && (r'.jobs == map[] && r'.staged == [] <==> r.jobs == map[] && r.staged == [])
      && (r.jobs != map[] ==> r'.jobs != map[])
    decreases |r.staged|
  {
    hide Good;
    if r.flushes < l.flushSlots && r.staged != [] {
      FlushShard(r, l);
      assert r.staged[0].0 in FlushOne(r).jobs;
      StartsNothing(FlushOne(r), l);
    }
  }

  lemma NobodyRuns<K(!new), P, S>(b: Book<K, P, S>, b': Book<K, P, S>, cfg: Config, now: nat)
    requires Resting(b', cfg) && SameOutlooks(b, b', cfg, 0, |cfg.maxInflight|, now)
    ensures !SomeKey(b, cfg, 0, now, Runs)
  {
    hide Resting, OutlookOf;
    forall k | k in b.slots ensures OutlookOf(b.slots[k], cfg, 0, now) != Runs {
      PassOver(b', cfg, now, k);
    }
  }

  lemma SameButDiscards<K(!new), P, S>(b: Book<K, P, S>, b1: Book<K, P, S>, b2: Book<K, P, S>, cfg: Config, now: nat)
    requires Resting(b1, cfg) && SameOutlooks(b, b1, cfg, 0, |cfg.maxInflight|, now) && b2 == b1.(expired := [])
    ensures Resting(b2, cfg) && SameOutlooks(b, b2, cfg, 0, |cfg.maxInflight|, now)
  {
    hide OutlookOf, Inv;
    DiscardsAside(b1, cfg);
  }

  lemma DiscardsAside<K, P, S>(b: Book<K, P, S>, cfg: Config)
    requires Inv(b, cfg)
    ensures Inv(b.(expired := []), cfg)
  {
    hide AccountsOk, RingsOk, IdleOk;
    PlacesFrame(b, {}, b.(expired := []), {});
    ExpiredAccounts(b, cfg, []);
  }

  /** Flushing every idle key hands nothing over exactly when none of them holds a
      state, and then exactly the idle keys go. */
  lemma {:induction false} EvictAllHands<K(!new), P, S>(b: Book<K, P, S>, cfg: Config)
    requires Inv(b, cfg)
    ensures IdleListed(b)
    ensures EvictAll(b).1 == [] <==> forall k :: k in b.idle ==> k in b.slots && b.slots[k].resident == None
    ensures EvictAll(b).1 == [] ==> EvictAll(b).0.slots == b.slots - (set k | k in b.idle)
    decreases |b.idle|
  {
    hide PlacesOk, AccountsOk;
    EvictAllKeeps(b, cfg);
    if b.idle != [] {
      ReleaseOldestKeeps(b, cfg);
      ReleaseShortens(b.(idle := b.idle[1..]), b.idle[0]);
      EvictAllHands(ReleaseOldest(b).0, cfg);
    }
  }

  /** What the state a turn starts in has to say for the shard to end with it. */
  ghost predicate EndsWith<K, I, W, S>(r: Reactor<K, I, W, S>, l: Limits, now: nat) {
    && Quiet(r) && !SomeKey(r.book, l.cfg, 0, now, Runs)
    && (r.finalFlush ==>
          forall k :: k in r.book.slots && OutlookOf(r.book.slots[k], l.cfg, 0, now) == Empties ==>
            r.book.slots[k].resident == None)
  }

  /** Exactly when a turn ends the shard, and exactly what it leaves: the stranded
      keys, and after the final flush the idle ones too; work, exactly the stranded. */
  lemma EndsExactly<K(!new), I(!new), W, S>(r: Reactor<K, I, W, S>, l: Limits, input: Input<K, I, W, S>)
    requires Good(r, l) && ArrivalsOk(input.arrivals, l)
    ensures Turn(r, l, input).1 <==> EndsWith(r, l, input.now)
    ensures Turn(r, l, input).1 ==>
      var left := Turn(r, l, input).0.book.slots;
      && (forall k :: k in left <==>
            k in r.book.slots && (r.finalFlush ==> OutlookOf(r.book.slots[k], l.cfg, 0, input.now) == Stranded))
      && (forall k :: k in left ==>
            (left[k].queue != [] <==> OutlookOf(r.book.slots[k], l.cfg, 0, input.now) == Stranded))
  {
    hide Good, ArrivalsOk, Begin, Serve, Resting, OutlookOf, SomeKey, FlushAll;
    BeginsQuiet(r, l, input.now);
    var begun := Begin(r, l, input.now);
    if Quiet(begun) {
      forall k | k in begun.book.slots
        ensures k in begun.book.idle <==> begun.book.slots[k].queue == []
        ensures OutlookOf(r.book.slots[k], l.cfg, 0, input.now) == if begun.book.slots[k].queue == [] then Empties
                                                                   else Stranded
      {
        PassOver(begun.book, l.cfg, input.now, k);
      }
      FlushAllHands(begun, l);
    }
  }

  lemma FlushAllHands<K(!new), I(!new), W, S>(r: Reactor<K, I, W, S>, l: Limits)
    requires Good(r, l) && r.staged == []
    ensures forall k :: k in r.book.idle ==> k in r.book.slots
    ensures FlushAll(r, l).staged == [] <==>
      forall k :: k in r.book.idle ==> k in r.book.slots && r.book.slots[k].resident == None
    ensures FlushAll(r, l).staged == [] ==> FlushAll(r, l).book.slots == r.book.slots - (set k | k in r.book.idle)
  {
    hide AccountsOk, LiveOk, JobsOk, CountsMatch, EvictAll;
    EvictAllHands(r.book, l.cfg);
  }

  /** A shard ends with an item queued exactly when its last turn starts with nothing
      in flight, staged or able to arrive, no waiting key's walk runs an item, some
      key's walk strands one, and, if the final flush is still to come, no key left
      with nothing queued holds a state. */
  lemma EndsWithWorkExactly<K(!new), I(!new), W, S>(r: Reactor<K, I, W, S>, l: Limits, input: Input<K, I, W, S>)
    requires Good(r, l) && ArrivalsOk(input.arrivals, l)
    ensures (Turn(r, l, input).1 && exists k :: QueueOf(Turn(r, l, input).0.book.slots, k) != [])
       <==> EndsWith(r, l, input.now) && SomeKey(r.book, l.cfg, 0, input.now, Stranded)
  {
    hide Good, ArrivalsOk, Turn, EndsWith, OutlookOf;
    EndsExactly(r, l, input);
    var left := Turn(r, l, input).0.book.slots;
    if Turn(r, l, input).1 && SomeKey(r.book, l.cfg, 0, input.now, Stranded) {
      var k :| k in r.book.slots && OutlookOf(r.book.slots[k], l.cfg, 0, input.now) == Stranded;
      assert QueueOf(left, k) != [];
    }
  }

  /** With no deadlines and some budget for each class no walk strands a key. */
  lemma NothingStrands<P, S>(slot: Slot<P, S>, cfg: Config, now: nat)
    requires forall item :: item in slot.queue ==> item.expiresAt.None? && Budgeted(cfg, item.cls)
    ensures OutlookOf(slot, cfg, 0, now) != Stranded
  {
    if slot.queue != [] { assert slot.queue[0] in slot.queue; }
  }

  // ---- The end of a run ------------------------------------------------------------------------------

  /** A run ends with its last turn exactly when the state that turn starts in says
      so, and leaves work queued exactly when that state strands a key. Whatever it
      leaves, nothing is in flight, staged or being flushed. */
  lemma WhatAnEndLeaves<K(!new), I(!new), W, S>(l: Limits, inputs: seq<Input<K, I, W, S>>)
    requires InputsOk(inputs, l) && inputs != [] && !Reached(l, inputs[..|inputs| - 1]).1
    ensures var (r, now) := (Reached(l, inputs[..|inputs| - 1]).0, inputs[|inputs| - 1].now);
      var (end, ended) := Reached(l, inputs);
      && (ended <==> EndsWith(r, l, now))
      && (ended && (exists k :: QueueOf(end.book.slots, k) != []) <==>
            EndsWith(r, l, now) && SomeKey(r.book, l.cfg, 0, now, Stranded))
      && (ended ==> Quiet(end) && end.book.evicting == 0 && end.book.running == map[])
  {
    hide Good, ArrivalsOk, Turn, EndsWith, SomeKey;
    var n := |inputs| - 1;
    var r := Reached(l, inputs[..n]).0;
    EndsExactly(r, l, inputs[n]);
    EndsWithWorkExactly(r, l, inputs[n]);
    if Reached(l, inputs).1 {
      EndIsQuiet(r, l, inputs[n]);
      QuietKeys(Reached(l, inputs).0, l);
    }
  }

  lemma EndIsQuiet<K(!new), I(!new), W, S>(r: Reactor<K, I, W, S>, l: Limits, input: Input<K, I, W, S>)
    requires Good(r, l) && ArrivalsOk(input.arrivals, l) && Turn(r, l, input).1
    ensures Quiet(Turn(r, l, input).0)
  {
    hide Good, ArrivalsOk, Begin, Serve;
  }

  // ---- Runs that leave work -----------------------------------------------------------------------------

  function ItemsOf<K, I, W>(arrivals: seq<Envelope<K, I, W>>, l: Limits): seq<Item<Stamped<I, W>>> {
    seq(|arrivals|, i requires 0 <= i < |arrivals| => ItemOf(arrivals[i], l))
  }

  /** One key's arrivals, few enough to be taken in one burst and none a retry. */
  ghost predicate OneKey<K, I, W>(arrivals: seq<Envelope<K, I, W>>, l: Limits, k: K) {
    && ArrivalsOk(arrivals, l) && !l.coalesce && |arrivals| < Clamp(l.admitBatch) && |arrivals| < l.maxPending
    && forall i :: 0 <= i < |arrivals| ==> arrivals[i].key == k
  }

  lemma ArriveQueues<K(!new), I(!new), W, S>(r: Reactor<K, I, W, S>, l: Limits, e: Envelope<K, I, W>)
    requires Good(r, l) && e.cls < |l.cfg.maxInflight| && !l.coalesce
    ensures var r' := Arrive(r, l, e);
      && QueueOf(r'.book.slots, e.key) == QueueOf(r.book.slots, e.key) + [ItemOf(e, l)]
      && r'.book.slots.Keys == r.book.slots.Keys + {e.key} && r'.book.pending == r.book.pending + 1
  {
    hide Good;
    RingCount(r, l);
    ArriveCoalesces(r, l, e);
    AdmitShard(r, l, e.key, ItemOf(e, l));
  }

  lemma {:induction false} BurstQueues<K(!new), I(!new), W, S>(r: Reactor<K, I, W, S>, l: Limits,
                                                             arrivals: seq<Envelope<K, I, W>>, n: nat, k: K)
    requires Good(r, l) && OneKey(arrivals, l, k) && n <= |arrivals|
    requires r.book.slots.Keys <= {k} && QueueOf(r.book.slots, k) == ItemsOf(arrivals[..n], l) && r.book.pending == n
    ensures var (r', taken) := Drained(r, l, arrivals, n);
      && taken == |arrivals| && r'.book.slots.Keys <= {k}
      && QueueOf(r'.book.slots, k) == ItemsOf(arrivals, l) && r'.book.pending == |arrivals|
    decreases |arrivals| - n
  {
    hide Good, Arrive;
    if n < |arrivals| {
      ArriveQueues(r, l, arrivals[n]);
      assert ItemsOf(arrivals[..n], l) + [ItemOf(arrivals[n], l)] == ItemsOf(arrivals[..n + 1], l);
      BurstQueues(Arrive(r, l, arrivals[n]), l, arrivals, n + 1, k);
    } else {
      assert arrivals[..n] == arrivals;
    }
  }

  /** A fresh shard takes one key's arrivals and sees its mailbox close. */
  lemma FreshTurn<K(!new), I(!new), W, S>(l: Limits, arrivals: seq<Envelope<K, I, W>>, now: nat, k: K)
    requires OneKey(arrivals, l, k)
    ensures Good(New<K, I, W, S>(l), l)
    ensures var (r, ended) := Turn(New<K, I, W, S>(l), l, Input(arrivals, true, [], None, now, now));
      && !ended && Quiet(r) && r.book.slots.Keys <= {k} && QueueOf(r.book.slots, k) == ItemsOf(arrivals, l)
  {
    hide Good, Drained;
    var r := New<K, I, W, S>(l);
    NewIsGood<K, I, W, S>(l);
    NothingToFill(r, l, 0, now);
    var r0 := Begin(r, l, now);
    assert r0 == r.(log := r0.log);
    assert ItemsOf(arrivals[..0], l) == [];
    BurstQueues(r0, l, arrivals, 0, k);
  }

  lemma TwoTurns<K(!new), I(!new), W, S>(l: Limits, first: Input<K, I, W, S>, second: Input<K, I, W, S>)
    requires ArrivalsOk(first.arrivals, l) && ArrivalsOk(second.arrivals, l) && Good(New<K, I, W, S>(l), l)
    requires !Turn(New(l), l, first).1
    ensures InputsOk([first, second], l)
    ensures Reached(l, [first, second]) == Turn(Turn(New(l), l, first).0, l, second)
  {
    hide Good, ArrivalsOk, Turn, New;
    var inputs := [first, second];
    assert InputsOk(inputs, l);
    assert inputs[..1] == [first] && [first][..0] == [];
    ReachedNone<K, I, W, S>(l);
    assert Reached(l, [first]) == Turn(New(l), l, first);
  }

  lemma ReachedNone<K(!new), I(!new), W, S>(l: Limits)
    ensures Reached(l, []) == (New<K, I, W, S>(l), false)
  {
  }

  /** One key's arrivals, stranded by the turn after: the shard ends with them. */
  lemma StrandedRun<K(!new), I(!new), W, S>(l: Limits, arrivals: seq<Envelope<K, I, W>>, later: nat, k: K)
    returns (inputs: seq<Input<K, I, W, S>>)
    requires OneKey(arrivals, l, k) && arrivals != [] && Walk(ItemsOf(arrivals, l), l.cfg, later) == Stranded
    ensures InputsOk(inputs, l) && |inputs| == 2 && inputs[0].arrivals == arrivals && inputs[1].arrivals == []
    ensures Reached(l, inputs).1
    ensures QueueOf(Reached(l, inputs).0.book.slots, k) != []
  {
    hide Good, Turn, New, Walk;
    var first: Input<K, I, W, S> := Input(arrivals, true, [], None, 0, 0);
    var second: Input<K, I, W, S> := Input([], false, [], None, later, later);
    FreshTurn<K, I, W, S>(l, arrivals, 0, k);
    TwoTurns(l, first, second);
    EndsExactly(Turn(New(l), l, first).0, l, second);
    inputs := [first, second];
  }

  /** With deadlines a shard can end with work still queued. Key 7 holds an item of
      class 1 that is past its deadline and, behind it, one of class 0. The pass
      looks at class 0 first and finds nothing; class 1 then discards the head and
      puts the key in ring 0; and the mailbox being closed, the shard ends. */
  lemma EndCanLeaveWork() returns (l: Limits, inputs: seq<Input<nat, nat, nat, nat>>)
    ensures l.cfg.maxInflight == [1, 1] && InputsOk(inputs, l) && Reached(l, inputs).1
    ensures QueueOf(Reached(l, inputs).0.book.slots, 7) != []
  {
    hide Good, Reached;
    l := Limits(Config([1, 1], None, 0, 0), 8, 8, 8, 1, false);
    var arrivals: seq<Envelope<nat, nat, nat>> := [Envelope(7, 1, None, Some(5), 1), Envelope(7, 0, None, None, 2)];
    var items := ItemsOf(arrivals, l);
    assert items[1..][0] == items[1] && ExpiredHeads(items[1..], 1, 10) == 0;
    inputs := StrandedRun(l, arrivals, 10, 7);
  }

  /** So it can with no deadline at all, when a class has no budget. */
  lemma EndCanLeaveUnbudgeted() returns (l: Limits, inputs: seq<Input<nat, nat, nat, nat>>)
    ensures l.cfg.maxInflight == [0] && InputsOk(inputs, l) && Reached(l, inputs).1
    ensures forall i :: 0 <= i < |inputs| ==> NoDeadlines(inputs[i].arrivals)
    ensures QueueOf(Reached(l, inputs).0.book.slots, 7) != []
  {
    hide Good, Reached;
    l := Limits(Config([0], None, 0, 0), 8, 8, 8, 1, false);
    var arrivals: seq<Envelope<nat, nat, nat>> := [Envelope(7, 0, None, None, 1)];
    inputs := StrandedRun(l, arrivals, 0, 7);
  }
}
