/** One call all the way through a shard: admitted, dispatched, completed with a state
    for its key, and the state flushed before the shard ends. */
module ShardOneCall {
  import opened Options
  import opened Book
  import opened BookInvariant
  import opened ShardEffects
  import opened ShardSteps
  import opened ShardLaws
  import opened ShardTurns

  lemma ReachedMore<K(!new), I(!new), W, S>(l: Limits, inputs: seq<Input<K, I, W, S>>, input: Input<K, I, W, S>)
    requires InputsOk(inputs, l) && ArrivalsOk(input.arrivals, l) && !Reached(l, inputs).1
    ensures InputsOk(inputs + [input], l)
    ensures Reached(l, inputs + [input]) == Turn(Reached(l, inputs).0, l, input)
  {
    hide Good, ArrivalsOk, Turn, New;
    assert (inputs + [input])[..|inputs|] == inputs;
  }

  /** One class with room for one, and one flush at a time. */
  function Small(): Limits {
    Limits(Config([1], None, 0, 0), 8, 8, 8, 1, false)
  }

  function One(presence: Presence, state: Option<nat>, queue: seq<Item<Stamped<nat, nat>>>)
    : map<nat, Slot<Stamped<nat, nat>, nat>>
  {
    map[7 := Slot(state, queue, presence, 0)]
  }

  ghost predicate At(r: Reactor<nat, nat, nat, nat>, book: Book<nat, Stamped<nat, nat>, nat>, jobs: map<nat, Job<nat>>,
                     staged: seq<(nat, nat)>, flushes: nat, open: bool, finalFlush: bool) {
    && r.book == book && r.jobs == jobs && r.staged == staged && r.flushes == flushes && r.live == {}
    && r.open == open && r.finalFlush == finalFlush
  }

  function Call(): Envelope<nat, nat, nat> { Envelope(7, 0, None, None, 1) }

  function Queued(): Item<Stamped<nat, nat>> { Item(0, None, Stamped(None, 1)) }

  function Waiting(): Book<nat, Stamped<nat, nat>, nat> {
    Book(One(Ready(0), None, [Queued()]), [[7]], [], [], [0], 1, 0, map[])
  }

  function Underway(): Book<nat, Stamped<nat, nat>, nat> {
    Book(One(InFlight, None, []), [[]], [], [], [1], 1, 0, map[7 := 0])
  }

  function Kept(): Book<nat, Stamped<nat, nat>, nat> {
    Book(One(Idle, Some(5), []), [[]], [7], [], [0], 0, 0, map[])
  }

  function Leaving(): Book<nat, Stamped<nat, nat>, nat> {
    Book(One(Evicting, None, []), [[]], [], [], [0], 0, 1, map[])
  }

  function Blank(): Book<nat, Stamped<nat, nat>, nat> {
    Book(map[], [[]], [], [], [0], 0, 0, map[])
  }

  lemma BlankIsEmpty()
    ensures Empty<nat, Stamped<nat, nat>, nat>(1) == Blank()
  {
    var b := Empty<nat, Stamped<nat, nat>, nat>(1);
    assert b.ready == [[]] && b.inflight == [0];
  }

  lemma AdmitsOne()
    ensures Admit(Blank(), 7, Queued()) == Waiting()
  {
    var queue: seq<Item<Stamped<nat, nat>>>, ring: seq<nat> := [], [];
    assert queue + [Queued()] == [Queued()] && ring + [7] == [7];
    var cold := Blank().(slots := map[7 := Cold()]);
    var queued := Enqueue(cold, 7, Queued());
    assert queued.slots == map[7 := Slot(None, [Queued()], Idle, 0)] && queued.pending == 1;
    var b := GoReady(queued, 7, 0);
    assert b.ready == [[7]] && b.slots == Waiting().slots;
  }

  lemma StartsOne()
    ensures Drainable(Waiting())
    ensures Next(Waiting(), Small().cfg, 0, 0) == (Underway(), Some(Dispatch(7, 0, None, Stamped(None, 1))))
  {
    var b := Waiting();
    var item := [Queued()];
    assert item[0..] == item && item[1..] == [] && item[..0] == [];
    assert ExpiredHeads(item, 0, 0) == 0;
    var ring: seq<nat> := [7];
    assert b.ready[0] == ring && ring[1..] == [];
    var popped := b.(ready := b.ready[0 := ring[1..]]);
    assert popped.ready == [[]];
    assert Tagged(7, item[..0]) == [];
    var rest := Expire(popped, 7, 0);
    assert rest.slots == b.slots && rest.expired == [];
    var started := Start(rest, 7, 0);
    assert started.slots == Underway().slots && started.running == Underway().running && started.inflight == [1];
  }

  lemma BudgetIsUsed()
    ensures Drainable(Underway()) && Next(Underway(), Small().cfg, 0, 0) == (Underway(), None)
  {
  }

  lemma CompletesOne()
    ensures Complete(Underway(), 7, 0, Some(5), 0) == Kept()
  {
    var b := Complete(Underway(), 7, 0, Some(5), 0);
    assert b.inflight == [0] && b.running == map[] && b.slots == Kept().slots && b.idle == [7];
  }

  lemma NothingReady()
    ensures Drainable(Kept()) && Next(Kept(), Small().cfg, 0, 0) == (Kept(), None)
    ensures Drainable(Leaving()) && Next(Leaving(), Small().cfg, 0, 0) == (Leaving(), None)
    ensures Drainable(Blank()) && Next(Blank(), Small().cfg, 0, 0) == (Blank(), None)
  {
  }

  lemma EvictsOne()
    ensures IdleListed(Kept()) && EvictAll(Kept()) == (Leaving(), [(7, 5)])
  {
    var (b, out) := ReleaseOldest(Kept());
    assert b.slots == Leaving().slots;
    assert b == Leaving() && EvictAll(b) == (b, []);
    assert out + [] == [(7, 5)];
  }

  lemma FlushesOne()
    ensures FinishEvict(Leaving(), 7, 0) == Blank()
  {
    assert FinishEvict(Leaving(), 7, 0).slots == map[];
  }

  lemma PassOverNothing(r: Reactor<nat, nat, nat, nat>)
    requires Good(r, Small()) && |r.book.ready| == 1 && r.book.expired == []
    requires Drainable(r.book) && Next(r.book, Small().cfg, 0, 0) == (r.book, None)
    ensures var r' := FillFrom(r, Small(), 0, 0); r' == r.(log := r'.log)
    ensures Begin(r, Small(), 0) == StartFlushes(FillFrom(r, Small(), 0, 0), Small())
  {
    hide Good, Next, StartFlushes;
    var l := Small();
    var filled := Fill(r, l, 0, 0);
    assert FillFrom(filled, l, 1, 0) == filled;
  }

  lemma NoFlushes(r: Reactor<nat, nat, nat, nat>)
    requires Good(r, Small()) && r.staged == []
    ensures StartFlushes(r, Small()) == r
  {
    hide Good;
  }

  /** The mailbox delivers one call and closes. */
  lemma AdmissionTurn(r: Reactor<nat, nat, nat, nat>, input: Input<nat, nat, nat, nat>)
    requires Good(r, Small()) && At(r, Blank(), map[], [], 0, true, true)
    requires input == Input([Call()], true, [], None, 0, 0)
    ensures ArrivalsOk(input.arrivals, Small())
    ensures var (r', ended) := Turn(r, Small(), input);
      !ended && At(r', Waiting(), map[], [], 0, false, true)
  {
    hide Good, Admit, Next, StartFlushes, FillFrom;
    var l := Small();
    NothingReady();
    PassOverNothing(r);
    var begun := Begin(r, l, 0);
    NoFlushes(FillFrom(r, l, 0, 0));
    AdmitsOne();
    assert ItemOf(Call(), l) == Queued();
    RingCount(begun, l);
    var r1 := Arrive(begun, l, Call());
    assert r1.book == Waiting() && r1.live == {};
    assert Drained(r1, l, input.arrivals, 1) == (r1, 1);
    assert Drained(begun, l, input.arrivals, 0) == (r1, 1);
  }

  /** The call is dispatched, and returns the state 5. */
  lemma CompletionTurn(r: Reactor<nat, nat, nat, nat>, input: Input<nat, nat, nat, nat>)
    requires Good(r, Small()) && At(r, Waiting(), map[], [], 0, false, true)
    requires input == Input([], false, [(7, Some(5))], None, 0, 0)
    ensures ArrivalsOk(input.arrivals, Small())
    ensures var begun := Begin(r, Small(), 0); At(begun, Underway(), map[7 := Run(0, None)], [], 0, false, true)
    ensures var (r', ended) := Turn(r, Small(), input);
      !ended && At(r', Kept(), map[], [], 0, false, true)
  {
    hide Good, Complete, Next, StartFlushes;
    var l := Small();
    StartsOne();
    BudgetIsUsed();
    CompletesOne();
    NextShard(r, l, 0, 0);
    var r1 := Served(r, l, 0, 0);
    assert r1.jobs == map[7 := Run(0, None)];
    var r2 := Fill(r1, l, 0, 0);
    assert r2 == r1.(log := r2.log);
    assert FillFrom(r2, l, 1, 0) == r2 && FillFrom(r, l, 0, 0) == r2;
    NoFlushes(r2);
    var begun := Begin(r, l, 0);
    assert begun == r2;
    var r3 := Finish(begun, l, 7, Some(5), 0);
    assert r3.jobs == map[] && r3.book == Kept();
    JobRemoved(begun.jobs, 7);
    assert Harvested(r3, l, input.finished, 1, 1, 0) == (r3, 1);
  }

  /** Nothing is left to run: the state is staged. */
  lemma FinalTurn(r: Reactor<nat, nat, nat, nat>, input: Input<nat, nat, nat, nat>)
    requires Good(r, Small()) && At(r, Kept(), map[], [], 0, false, true) && input == Input([], false, [], None, 0, 0)
    ensures ArrivalsOk(input.arrivals, Small())
    ensures var (r', ended) := Turn(r, Small(), input);
      !ended && At(r', Leaving(), map[], [(7, 5)], 0, false, false)
  {
    hide Good, EvictAll, Next, StartFlushes, FillFrom;
    NothingReady();
    EvictsOne();
    PassOverNothing(r);
    NoFlushes(FillFrom(r, Small(), 0, 0));
  }

  /** It is flushed. */
  lemma FlushTurn(r: Reactor<nat, nat, nat, nat>, input: Input<nat, nat, nat, nat>)
    requires Good(r, Small()) && At(r, Leaving(), map[], [(7, 5)], 0, false, false)
    requires input == Input([], false, [(7, None)], None, 0, 0)
    ensures ArrivalsOk(input.arrivals, Small())
    ensures var (r', ended) := Turn(r, Small(), input);
      !ended && At(r', Blank(), map[], [], 0, false, false)
  {
    hide Good, FinishEvict, Next, FillFrom;
    var l := Small();
    NothingReady();
    FlushesOne();
    PassOverNothing(r);
    var filled := FillFrom(r, l, 0, 0);
    FlushShard(filled, l);
    NoFlushes(FlushOne(filled));
    var begun := Begin(r, l, 0);
    assert begun == FlushOne(filled);
    assert begun.jobs == map[7 := Flush];
    var r3 := Finish(begun, l, 7, None, 0);
    assert r3.jobs == map[] && r3.book == Blank();
    JobRemoved(begun.jobs, 7);
    assert Harvested(r3, l, input.finished, 1, 1, 0) == (r3, 1);
  }

  /** And the shard ends. */
  lemma LastTurn(r: Reactor<nat, nat, nat, nat>, input: Input<nat, nat, nat, nat>)
    requires Good(r, Small()) && At(r, Blank(), map[], [], 0, false, false) && input == Input([], false, [], None, 0, 0)
    ensures ArrivalsOk(input.arrivals, Small())
    ensures var (r', ended) := Turn(r, Small(), input);
      ended && At(r', Blank(), map[], [], 0, false, false)
  {
    hide Good, Next, StartFlushes, FillFrom;
    NothingReady();
    PassOverNothing(r);
    NoFlushes(FillFrom(r, Small(), 0, 0));
  }

  lemma FreshIsBlank()
    ensures var (r, ended) := Reached<nat, nat, nat, nat>(Small(), []);
      !ended && At(r, Blank(), map[], [], 0, true, true)
  {
    hide Good;
    BlankIsEmpty();
  }

  lemma AllOk<K(!new), I(!new), W, S>(l: Limits, inputs: seq<Input<K, I, W, S>>)
    requires forall i :: 0 <= i < |inputs| ==> ArrivalsOk(inputs[i].arrivals, l)
    ensures InputsOk(inputs, l) && (forall n :: 0 <= n <= |inputs| ==> InputsOk(inputs[..n], l))
    ensures inputs[..0] == [] && inputs[..|inputs|] == inputs
  {
    hide ArrivalsOk;
  }

  lemma NextTurn<K(!new), I(!new), W, S>(l: Limits, inputs: seq<Input<K, I, W, S>>, n: nat)
    requires n < |inputs| && ArrivalsOk(inputs[n].arrivals, l)
    requires InputsOk(inputs[..n], l) && InputsOk(inputs[..n + 1], l) && !Reached(l, inputs[..n]).1
    ensures Reached(l, inputs[..n + 1]) == Turn(Reached(l, inputs[..n]).0, l, inputs[n])
  {
    hide Good, ArrivalsOk, Turn, New;
    assert inputs[..n + 1] == inputs[..n] + [inputs[n]];
    ReachedMore(l, inputs[..n], inputs[n]);
  }

  /** A call goes all the way: admitted in the first turn, dispatched and completed in
      the second with a state for its key, which the third turn stages and the fourth
      flushes; and the fifth ends the shard with nothing left. */
  lemma OneCallToTheEnd() returns (l: Limits, inputs: seq<Input<nat, nat, nat, nat>>)
    ensures |inputs| == 5 && InputsOk(inputs, l) && (forall n :: 0 <= n <= 5 ==> InputsOk(inputs[..n], l))
    ensures inputs[0].arrivals == [Envelope(7, 0, None, None, 1)] && inputs[1].finished == [(7, Some(5))]
    ensures QueueOf(Reached(l, inputs[..1]).0.book.slots, 7) == [Item(0, None, Stamped(None, 1))]
    ensures Begin(Reached(l, inputs[..1]).0, l, inputs[1].now).jobs == map[7 := Run(0, None)]
    ensures Reached(l, inputs[..2]).0.book.slots == map[7 := Slot(Some(5), [], Idle, 0)]
    ensures Reached(l, inputs[..3]).0.staged == [(7, 5)]
    ensures Reached(l, inputs[..4]).0.book.slots == map[] && !Reached(l, inputs[..4]).1
    ensures Reached(l, inputs).0.book.slots == map[] && Reached(l, inputs).1
  {
    hide Good, Turn, Reached, New, Begin, InputsOk;
    l := Small();
    inputs := [Input([Call()], true, [], None, 0, 0), Input([], false, [(7, Some(5))], None, 0, 0),
               Input([], false, [], None, 0, 0), Input([], false, [(7, None)], None, 0, 0),
               Input([], false, [], None, 0, 0)];
    FreshIsBlank();
    AllOk(l, inputs);
    AdmissionTurn(Reached(l, inputs[..0]).0, inputs[0]);
    NextTurn(l, inputs, 0);
    CompletionTurn(Reached(l, inputs[..1]).0, inputs[1]);
    NextTurn(l, inputs, 1);
    FinalTurn(Reached(l, inputs[..2]).0, inputs[2]);
    NextTurn(l, inputs, 2);
    FlushTurn(Reached(l, inputs[..3]).0, inputs[3]);
    NextTurn(l, inputs, 3);
    LastTurn(Reached(l, inputs[..4]).0, inputs[4]);
    NextTurn(l, inputs, 4);
    assert inputs[..5] == inputs;
  }
}
