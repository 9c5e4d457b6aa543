/** The mailbox handshake as an interleaving of its atomic steps: any number of
    sending handles, one receiver, a ring that gives back claims in order once they
    are published, and a doorbell that hands its waker to the first ring. */
module MailboxProtocol {
  import opened Options

  /** A position of the ring that has been claimed and not popped. */
  datatype Slot<V> = Slot(value: V, owner: nat, published: bool)

  datatype Sending<V> = Rest | Pushing(value: V) | Claimed(value: V, at: nat) | Ringing

  /** One handle; `owing` while it has published without announcing. */
  datatype Sender<V> = Sender(pc: Sending<V>, owing: bool)

  datatype Receiver<V> =
    | Running
    // poll_recv
    | Polling
    | Empty
    | Counted(closed: bool)
    | Registered(closed: bool)
    | Parked(closed: bool)
    | Took(value: V)
    | Finishing
    | Asleep
    | Finished
    // try_recv
    | Trying(closed: bool)
    | Refusing(closed: bool)

  datatype State<V> = State(
    capacity: nat,
    ring: seq<Slot<V>>,
    parked: bool,
    registered: bool,
    producers: nat,
    senders: map<nat, Sender<V>>,
    /** The last handle has gone and is about to ring. */
    lastOut: bool,
    receiver: Receiver<V>,
    // History: values accepted in claim order, values taken, whether the waker of
    // the latest registration has been woken, how many registrations there were,
    // and how many when the last handle rang.
    accepted: seq<V>,
    taken: seq<V>,
    woken: bool,
    registrations: nat,
    lastRing: Option<nat>)

  /** What a sending handle does next; the last ring is a handle's that is gone. */
  datatype Move<V> =
    | Push(value: V) | Claim | Refuse | Publish | LoadParked | Ring | Clone(other: nat) | Drop

  datatype Turn =
    | Poll | FirstTake | CountProducers | Register | Park | SecondTake | Unpark | Finish | PollAgain
    | TryRecv | TryTake | TryGiveUp

  datatype Step<V> = Send(t: nat, move: Move<V>) | RingLast | Receive(turn: Turn)

  function Init<V>(capacity: nat): State<V> {
    State(capacity, [], false, false, 1, map[0 := Sender(Rest, false)], false, Running, [], [], false, 0, None)
  }

  predicate Has<V>(s: State<V>, t: nat) { t in s.senders }

  predicate HeadReady<V>(s: State<V>) { s.ring != [] && s.ring[0].published }

  predicate MayMove<V>(s: State<V>, t: nat, move: Move<V>) {
    Has(s, t) &&
    match move
    case Push(_) => s.senders[t].pc.Rest?
    case Claim => s.senders[t].pc.Pushing? && |s.ring| < s.capacity
    case Refuse => s.senders[t].pc.Pushing? && |s.ring| == s.capacity
    case Publish => s.senders[t].pc.Claimed?
    case LoadParked => s.senders[t].pc.Rest?
    case Ring => s.senders[t].pc.Ringing?
    case Clone(u) => s.senders[t].pc.Rest? && !Has(s, u)
    case Drop => s.senders[t] == Sender(Rest, false)
  }

  predicate MayTurn<V>(r: Receiver<V>, turn: Turn) {
    match turn
    case Poll => r.Running?
    case FirstTake => r.Polling?
    case CountProducers => r.Empty?
    case Register => r.Counted?
    case Park => r.Registered?
    case SecondTake => r.Parked?
    case Unpark => r.Took?
    case Finish => r.Finishing?
    case PollAgain => r.Asleep?
    case TryRecv => r.Running?
    case TryTake => r.Trying?
    case TryGiveUp => r.Refusing?
  }

  predicate Enabled<V>(s: State<V>, step: Step<V>) {
    match step
    case Send(t, move) => MayMove(s, t, move)
    case RingLast => s.lastOut
    case Receive(turn) => MayTurn(s.receiver, turn)
  }

  function Go<V>(s: State<V>, t: nat, pc: Sending<V>, owing: bool): State<V> {
    s.(senders := s.senders[t := Sender(pc, owing)])
  }

  /** The doorbell's ring: whoever is registered is woken, once. */
  function Rung<V>(s: State<V>): State<V> {
    if s.registered then s.(registered := false, woken := true) else s
  }

  function Pop<V>(s: State<V>): State<V>
    requires HeadReady(s)
  {
    s.(ring := s.ring[1..], taken := s.taken + [s.ring[0].value], receiver := Took(s.ring[0].value))
  }

  function Published<V>(s: State<V>, at: nat): seq<Slot<V>> {
    if |s.taken| <= at < |s.taken| + |s.ring| then
      s.ring[at - |s.taken| := s.ring[at - |s.taken|].(published := true)]
    else s.ring
  }

  /** A step of a sending handle. */
  function ActSender<V>(s: State<V>, t: nat, move: Move<V>): State<V>
    requires MayMove(s, t, move)
  {
    match move
    case Push(value) => Go(s, t, Pushing(value), s.senders[t].owing)
    case Claim =>
      var v := s.senders[t].pc.value;
      Go(s, t, Claimed(v, |s.accepted|), s.senders[t].owing)
        .(ring := s.ring + [Slot(v, t, false)], accepted := s.accepted + [v])
    case Refuse => Go(s, t, Rest, s.senders[t].owing)
    case Publish => Go(s, t, Rest, true).(ring := Published(s, s.senders[t].pc.at))
    case LoadParked =>
      if s.parked then Go(s, t, Ringing, s.senders[t].owing) else Go(s, t, Rest, false)
    case Ring => Go(Rung(s), t, Rest, false)
    case Clone(u) => Go(s, u, Rest, false).(producers := s.producers + 1)
    case Drop =>
      s.(senders := s.senders - {t}, producers := if s.producers > 0 then s.producers - 1 else 0,
         lastOut := s.lastOut || s.producers == 1)
  }

  predicate Takes(turn: Turn) { turn.FirstTake? || turn.SecondTake? || turn.TryTake? }

  /** Where a look at the ring that finds nothing leads. */
  function OnEmpty<V>(r: Receiver<V>, turn: Turn): Receiver<V>
    requires MayTurn(r, turn) && Takes(turn)
  {
    match turn
    case FirstTake => Empty
    case SecondTake => if r.closed then Finishing else Asleep
    case TryTake => Refusing(r.closed)
  }

  function ActLook<V>(s: State<V>, turn: Turn): State<V>
    requires MayTurn(s.receiver, turn) && Takes(turn)
  {
    if HeadReady(s) then Pop(s) else s.(receiver := OnEmpty(s.receiver, turn))
  }

  function ActElse<V>(s: State<V>, turn: Turn): State<V>
    requires MayTurn(s.receiver, turn) && !Takes(turn)
  {
    match turn
    case Poll => s.(receiver := Polling)
    case CountProducers => s.(receiver := Counted(s.producers == 0))
    case Register =>
      s.(receiver := Registered(s.receiver.closed), registered := true, woken := false,
        registrations := s.registrations + 1)
    case Park => s.(receiver := Parked(s.receiver.closed), parked := true)
    case Unpark => s.(receiver := Running, parked := false)
    case Finish => s.(receiver := Finished, parked := false)
    case PollAgain => s.(receiver := Running)
    case TryRecv => s.(receiver := Trying(s.producers == 0))
    case TryGiveUp => s.(receiver := if s.receiver.closed then Finished else Running)
  }

  /** A step of the receiver. */
  function ActReceiver<V>(s: State<V>, turn: Turn): State<V>
    requires MayTurn(s.receiver, turn)
  {
    if Takes(turn) then ActLook(s, turn) else ActElse(s, turn)
  }

  function ActLast<V>(s: State<V>): State<V> {
    Rung(s).(lastOut := false, lastRing := Some(s.registrations))
  }

  /** One atomic step, as the code takes it. */
  function Act<V>(s: State<V>, step: Step<V>): State<V>
    requires Enabled(s, step)
  {
    match step
    case Send(t, move) => ActSender(s, t, move)
    case RingLast => ActLast(s)
    case Receive(turn) => ActReceiver(s, turn)
  }

  // ---- Invariant ------------------------------------------------------------------------------

  function Values<V>(ring: seq<Slot<V>>): (vs: seq<V>)
    ensures |vs| == |ring|
  {
    seq(|ring|, i requires 0 <= i < |ring| => ring[i].value)
  }

  /** Nothing is lost, doubled or reordered between acceptance and taking. */
  ghost predicate InOrder<V>(accepted: seq<V>, taken: seq<V>, ring: seq<Slot<V>>) {
    accepted == taken + Values(ring)
  }

  /** An unpublished position is being filled by its owner, who is alive. */
  ghost predicate FilledByOwner<V>(ring: seq<Slot<V>>, base: nat, senders: map<nat, Sender<V>>) {
    forall i :: 0 <= i < |ring| && !ring[i].published ==>
      ring[i].owner in senders && senders[ring[i].owner].pc == Claimed(ring[i].value, base + i)
  }

  /** A sender that has claimed a position owns it, unpublished. */
  ghost predicate OwnsClaim<V>(ring: seq<Slot<V>>, base: nat, senders: map<nat, Sender<V>>) {
    forall t :: t in senders && senders[t].pc.Claimed? ==>
      && base <= senders[t].pc.at < base + |ring|
      && ring[senders[t].pc.at - base] == Slot(senders[t].pc.value, t, false)
  }

  predicate SawClosed<V>(r: Receiver<V>) {
    || ((r.Counted? || r.Registered? || r.Parked? || r.Trying? || r.Refusing?) && r.closed)
    || r.Finishing? || r.Finished?
  }

  predicate Waitable<V>(r: Receiver<V>) { r.Registered? || r.Parked? || r.Asleep? }

  ghost predicate ReceiverOk<V>(s: State<V>) {
    && (SawClosed(s.receiver) ==> s.senders == map[])
    && ((s.receiver.Finishing? || s.receiver.Finished? || (s.receiver.Refusing? && s.receiver.closed)) ==> s.ring == [])
    && (s.receiver.Parked? || s.receiver.Asleep? ==> s.parked)
    && (Waitable(s.receiver) ==> s.registered || s.woken)
    && (Waitable(s.receiver) && s.lastRing == Some(s.registrations) ==> s.woken)
    && (s.lastRing.Some? ==> s.lastRing.value <= s.registrations)
  }

  ghost predicate Owed<V>(s: State<V>) {
    exists t :: Has(s, t) && s.senders[t].owing
  }

  /** A sleeping receiver nobody has woken has nothing to take, or is owed a ring. */
  ghost predicate SleepOk<V>(s: State<V>) {
    s.receiver.Asleep? && !s.woken && HeadReady(s) ==> Owed(s)
  }

  ghost predicate Inv<V>(s: State<V>) {
    && InOrder(s.accepted, s.taken, s.ring)
    && FilledByOwner(s.ring, |s.taken|, s.senders) && OwnsClaim(s.ring, |s.taken|, s.senders)
    && ReceiverOk(s) && SleepOk(s) && s.producers == |s.senders|
  }

  // ---- Every step keeps the invariant --------------------------------------------------------------

  lemma InitOk<V>(capacity: nat)
    ensures Inv(Init<V>(capacity))
  {
  }

  /** What a receiver step can do: pop a published head, or nothing to the ring and
      the senders. */
  lemma ReceiverEffect<V>(s: State<V>, turn: Turn)
    requires MayTurn(s.receiver, turn)
    ensures var s' := ActReceiver(s, turn);
      && s'.senders == s.senders && s'.producers == s.producers && s'.accepted == s.accepted
      && s'.lastRing == s.lastRing && s'.lastOut == s.lastOut
      && (|| (s'.ring == s.ring && s'.taken == s.taken)
          || (HeadReady(s) && s'.ring == s.ring[1..] && s'.taken == s.taken + [s.ring[0].value] && s'.receiver.Took?))
  {
    if !Takes(turn) {
      hide ActLook;
      ElseEffect(s, turn);
    } else {
      hide ActElse;
    }
  }

  lemma ElseEffect<V>(s: State<V>, turn: Turn)
    requires MayTurn(s.receiver, turn) && !Takes(turn)
    ensures var s' := ActElse(s, turn);
      && s'.senders == s.senders && s'.producers == s.producers && s'.accepted == s.accepted
      && s'.lastRing == s.lastRing && s'.lastOut == s.lastOut && s'.ring == s.ring && s'.taken == s.taken
  {
  }

  /** What a sender step can do to the receiver's part. */
  lemma SenderEffect<V>(s: State<V>, t: nat, move: Move<V>)
    requires MayMove(s, t, move)
    ensures var s' := ActSender(s, t, move);
      && s'.receiver == s.receiver && s'.parked == s.parked && s'.taken == s.taken
      && s'.registrations == s.registrations && s'.lastRing == s.lastRing
      && (if move.Ring? && s.registered then !s'.registered && s'.woken
          else s'.registered == s.registered && s'.woken == s.woken)
      && (!move.Claim? ==> s'.accepted == s.accepted)
      && (!move.Claim? && !move.Publish? ==> s'.ring == s.ring)
  {
  }

  lemma OrderKeeps<V>(s: State<V>, step: Step<V>)
    requires InOrder(s.accepted, s.taken, s.ring) && Enabled(s, step)
    ensures InOrder(Act(s, step).accepted, Act(s, step).taken, Act(s, step).ring)
  {
    hide ActReceiver;
    var s' := Act(s, step);
    if step.Receive? {
      ReceiverEffect(s, step.turn);
      if s'.ring != s.ring { assert Values(s.ring) == [s.ring[0].value] + Values(s.ring[1..]); }
    } else if step.Send? {
      SenderOrder(s, step.t, step.move);
    }
  }

  lemma SenderOrder<V>(s: State<V>, t: nat, move: Move<V>)
    requires InOrder(s.accepted, s.taken, s.ring) && MayMove(s, t, move)
    ensures var s' := ActSender(s, t, move); InOrder(s'.accepted, s'.taken, s'.ring)
  {
    var s' := ActSender(s, t, move);
    if move.Claim? {
      assert Values(s'.ring) == Values(s.ring) + [s.senders[t].pc.value];
    } else if move.Publish? {
      assert Values(s'.ring) == Values(s.ring);
    }
  }

  // ---- Who fills what -----------------------------------------------------------------------------

  lemma OwnersPop<V>(ring: seq<Slot<V>>, base: nat, senders: map<nat, Sender<V>>)
    requires FilledByOwner(ring, base, senders) && OwnsClaim(ring, base, senders)
    requires ring != [] && ring[0].published
    ensures FilledByOwner(ring[1..], base + 1, senders) && OwnsClaim(ring[1..], base + 1, senders)
  {
  }

  /** A sender that neither held a claim nor takes one leaves the ring's owners be. */
  lemma OwnersMove<V>(ring: seq<Slot<V>>, base: nat, senders: map<nat, Sender<V>>, senders': map<nat, Sender<V>>,
                      t: nat)
    requires FilledByOwner(ring, base, senders) && OwnsClaim(ring, base, senders)
    requires t in senders ==> !senders[t].pc.Claimed?
    requires t in senders' ==> !senders'[t].pc.Claimed?
    requires forall u :: u != t ==> (u in senders <==> u in senders')
    requires forall u :: u != t && u in senders ==> senders'[u] == senders[u]
    ensures FilledByOwner(ring, base, senders') && OwnsClaim(ring, base, senders')
  {
  }

  lemma OwnersClaim<V>(ring: seq<Slot<V>>, base: nat, senders: map<nat, Sender<V>>, t: nat, value: V, owing: bool)
    requires FilledByOwner(ring, base, senders) && OwnsClaim(ring, base, senders)
    requires t in senders && !senders[t].pc.Claimed?
    ensures FilledByOwner(ring + [Slot(value, t, false)], base,
      senders[t := Sender(Claimed(value, base + |ring|), owing)])
    ensures OwnsClaim(ring + [Slot(value, t, false)], base, senders[t := Sender(Claimed(value, base + |ring|), owing)])
  {
  }

  lemma OwnersPublish<V>(ring: seq<Slot<V>>, base: nat, senders: map<nat, Sender<V>>, t: nat, owing: bool)
    requires FilledByOwner(ring, base, senders) && OwnsClaim(ring, base, senders)
    requires t in senders && senders[t].pc.Claimed?
    ensures base <= senders[t].pc.at < base + |ring|
    ensures var at := senders[t].pc.at - base;
      && FilledByOwner(ring[at := ring[at].(published := true)], base, senders[t := Sender(Rest, owing)])
      && OwnsClaim(ring[at := ring[at].(published := true)], base, senders[t := Sender(Rest, owing)])
  {
  }

  lemma SenderOwners<V>(s: State<V>, t: nat, move: Move<V>)
    requires MayMove(s, t, move) && |s.accepted| == |s.taken| + |s.ring|
    requires FilledByOwner(s.ring, |s.taken|, s.senders) && OwnsClaim(s.ring, |s.taken|, s.senders)
    ensures var s' := ActSender(s, t, move);
      FilledByOwner(s'.ring, |s'.taken|, s'.senders) && OwnsClaim(s'.ring, |s'.taken|, s'.senders)
  {
    hide FilledByOwner, OwnsClaim;
    var s' := ActSender(s, t, move);
    if move.Claim? {
      OwnersClaim(s.ring, |s.taken|, s.senders, t, s.senders[t].pc.value, s.senders[t].owing);
    } else if move.Publish? {
      OwnersPublish(s.ring, |s.taken|, s.senders, t, true);
    } else {
      OwnersMove(s.ring, |s.taken|, s.senders, s'.senders, if move.Clone? then move.other else t);
    }
  }

  lemma OwnersKeep<V>(s: State<V>, step: Step<V>)
    requires InOrder(s.accepted, s.taken, s.ring) && Enabled(s, step)
    requires FilledByOwner(s.ring, |s.taken|, s.senders) && OwnsClaim(s.ring, |s.taken|, s.senders)
    ensures var s' := Act(s, step);
      FilledByOwner(s'.ring, |s'.taken|, s'.senders) && OwnsClaim(s'.ring, |s'.taken|, s'.senders)
  {
    hide FilledByOwner, OwnsClaim, ActReceiver, ActSender;
    if step.Receive? {
      ReceiverEffect(s, step.turn);
      if HeadReady(s) { OwnersPop(s.ring, |s.taken|, s.senders); }
    } else if step.Send? {
      SenderOwners(s, step.t, step.move);
    }
  }

  lemma SenderProducers<V>(s: State<V>, t: nat, move: Move<V>)
    requires s.producers == |s.senders| && MayMove(s, t, move)
    ensures ActSender(s, t, move).producers == |ActSender(s, t, move).senders|
  {
    var s' := ActSender(s, t, move);
    if move.Clone? {
      assert s'.senders.Keys == s.senders.Keys + {move.other};
    } else if move.Drop? {
      assert s'.senders.Keys == s.senders.Keys - {t};
    } else {
      assert s'.senders.Keys == s.senders.Keys;
    }
  }

  lemma ProducersKeep<V>(s: State<V>, step: Step<V>)
    requires s.producers == |s.senders| && Enabled(s, step)
    ensures Act(s, step).producers == |Act(s, step).senders|
  {
    hide ActReceiver, ActSender;
    if step.Receive? {
      ReceiverEffect(s, step.turn);
    } else if step.Send? {
      SenderProducers(s, step.t, step.move);
    }
  }

  // ---- The receiver ------------------------------------------------------------------------------------

  /** With every handle gone, every position is published. */
  lemma NobodyLeft<V>(s: State<V>)
    requires FilledByOwner(s.ring, |s.taken|, s.senders) && s.senders == map[] && s.ring != []
    ensures HeadReady(s)
  {
  }

  lemma LookKeeps<V>(s: State<V>, turn: Turn)
    requires ReceiverOk(s) && MayTurn(s.receiver, turn) && Takes(turn)
    requires s.senders == map[] && s.ring != [] ==> HeadReady(s)
    ensures ReceiverOk(ActLook(s, turn))
  {
  }

  lemma ElseKeeps<V>(s: State<V>, turn: Turn)
    requires ReceiverOk(s) && MayTurn(s.receiver, turn) && !Takes(turn) && s.producers == |s.senders|
    ensures ReceiverOk(ActElse(s, turn))
  {
    assert s.producers == 0 ==> s.senders == map[];
  }

  lemma TurnKeeps<V>(s: State<V>, turn: Turn)
    requires ReceiverOk(s) && MayTurn(s.receiver, turn) && s.producers == |s.senders|
    requires s.senders == map[] && s.ring != [] ==> HeadReady(s)
    ensures ReceiverOk(ActReceiver(s, turn))
  {
    hide ReceiverOk, ActLook, ActElse, MayTurn;
    if Takes(turn) { LookKeeps(s, turn); } else { ElseKeeps(s, turn); }
  }

  lemma ReceiverKeeps<V>(s: State<V>, step: Step<V>)
    requires Inv(s) && Enabled(s, step)
    ensures ReceiverOk(Act(s, step))
  {
    hide InOrder, FilledByOwner, OwnsClaim, SleepOk, ActSender, ActReceiver;
    if s.senders == map[] && s.ring != [] { NobodyLeft(s); }
    if step.Receive? {
      TurnKeeps(s, step.turn);
    } else if step.Send? {
      SenderEffect(s, step.t, step.move);
    }
  }

  lemma SenderSleep<V>(s: State<V>, t: nat, move: Move<V>)
    requires ReceiverOk(s) && SleepOk(s) && MayMove(s, t, move)
    ensures SleepOk(ActSender(s, t, move))
  {
    var s' := ActSender(s, t, move);
    if s'.receiver.Asleep? && !s'.woken && HeadReady(s') {
      if move.Publish? {
        assert s'.senders[t].owing;
      } else {
        var u :| Has(s, u) && s.senders[u].owing;
        assert s'.senders[u].owing;
      }
    }
  }

  lemma SleepKeeps<V>(s: State<V>, step: Step<V>)
    requires ReceiverOk(s) && SleepOk(s) && Enabled(s, step)
    ensures SleepOk(Act(s, step))
  {
    hide ActSender;
    if step.Send? {
      SenderSleep(s, step.t, step.move);
    } else if step.RingLast? && SleepOk(s) && s.receiver.Asleep? && !s.woken && HeadReady(s) {
      var u :| Has(s, u) && s.senders[u].owing;
      assert Has(ActLast(s), u);
    }
  }

  lemma StepKeeps<V>(s: State<V>, step: Step<V>)
    requires Inv(s) && Enabled(s, step)
    ensures Inv(Act(s, step))
  {
    hide InOrder, FilledByOwner, OwnsClaim, ReceiverOk, SleepOk, Act;
    OrderKeeps(s, step);
    OwnersKeep(s, step);
    ProducersKeep(s, step);
    ReceiverKeeps(s, step);
    SleepKeeps(s, step);
  }

  // ---- Whole runs --------------------------------------------------------------------------------------

  ghost predicate Run<V(!new)>(capacity: nat, states: seq<State<V>>, steps: seq<Step<V>>) {
    && |states| == |steps| + 1 && states[0] == Init(capacity)
    && (forall i :: 0 <= i < |steps| ==> Enabled(states[i], steps[i]) && states[i + 1] == Act(states[i], steps[i]))
  }

  lemma {:induction false} RunKeeps<V(!new)>(capacity: nat, states: seq<State<V>>, steps: seq<Step<V>>, i: nat)
    requires Run(capacity, states, steps) && i < |states|
    ensures Inv(states[i])
    decreases i
  {
    hide Inv;
    if i == 0 {
      InitOk<V>(capacity);
    } else {
      RunKeeps(capacity, states, steps, i - 1);
      assert Enabled(states[i - 1], steps[i - 1]);
      StepKeeps(states[i - 1], steps[i - 1]);
    }
  }

  /** While the receiver sleeps unwoken on a published item, some sender is still
      between its publish and its doorbell check. */
  lemma NoItemIsSleptOn<V(!new)>(capacity: nat, states: seq<State<V>>, steps: seq<Step<V>>, i: nat)
    requires Run(capacity, states, steps) && i < |states|
    requires states[i].receiver.Asleep? && !states[i].woken && HeadReady(states[i])
    ensures Owed(states[i])
  {
    RunKeeps(capacity, states, steps, i);
  }

  /** So once every sender has come to rest, an unwoken sleeper has taken
      everything that was accepted. */
  lemma QuietSleepIsEmpty<V(!new)>(capacity: nat, states: seq<State<V>>, steps: seq<Step<V>>, i: nat)
    requires Run(capacity, states, steps) && i < |states|
    requires states[i].receiver.Asleep? && !states[i].woken
    requires forall t :: Has(states[i], t) ==> states[i].senders[t].pc.Rest? && !states[i].senders[t].owing
    ensures states[i].taken == states[i].accepted
  {
    RunKeeps(capacity, states, steps, i);
  }

  /** Values come out in the order they were accepted, none lost or doubled. */
  lemma TakenInOrder<V(!new)>(capacity: nat, states: seq<State<V>>, steps: seq<Step<V>>, i: nat)
    requires Run(capacity, states, steps) && i < |states|
    ensures states[i].taken <= states[i].accepted
  {
    RunKeeps(capacity, states, steps, i);
  }

  /** `Ready(None)` and `Closed` are conclusive: every accepted value has been taken,
      and no handle is left to send another. */
  lemma ClosedIsConclusive<V(!new)>(capacity: nat, states: seq<State<V>>, steps: seq<Step<V>>, i: nat)
    requires Run(capacity, states, steps) && i < |states| && states[i].receiver.Finished?
    ensures states[i].taken == states[i].accepted && states[i].senders == map[]
  {
    RunKeeps(capacity, states, steps, i);
  }

  /** Once the last handle is out nobody else rings, and a registration made after
      its ring is never woken. */
  ghost predicate LastOk<V>(s: State<V>) {
    && (s.lastOut || s.lastRing.Some? ==> s.senders == map[])
    && (s.lastRing.Some? ==> !s.lastOut && s.lastRing.value <= s.registrations)
    && (Waitable(s.receiver) && s.lastRing.Some? && s.lastRing.value < s.registrations ==> !s.woken)
  }

  lemma LastKeeps<V>(s: State<V>, step: Step<V>)
    requires s.producers == |s.senders| && LastOk(s) && Enabled(s, step)
    ensures LastOk(Act(s, step))
  {
    hide ActSender, ActReceiver;
    if step.Send? {
      SenderEffect(s, step.t, step.move);
      SenderLast(s, step.t, step.move);
    } else if step.Receive? {
      ReceiverEffect(s, step.turn);
      ReceiverLast(s, step.turn);
    }
  }

  lemma SenderLast<V>(s: State<V>, t: nat, move: Move<V>)
    requires s.producers == |s.senders| && LastOk(s) && MayMove(s, t, move)
    ensures s.lastRing.None? && !s.lastOut
    ensures ActSender(s, t, move).lastOut ==> ActSender(s, t, move).senders == map[]
  {
    assert t in s.senders;
    if move.Drop? && s.producers == 1 {
      assert (s.senders - {t}).Keys == s.senders.Keys - {t};
      assert |s.senders.Keys - {t}| == 0;
    }
  }

  /** Only a registration makes the receiver newly waitable, and it is unwoken. */
  ghost predicate WaitsOn<V>(s: State<V>, s': State<V>, turn: Turn) {
    && s'.registrations >= s.registrations
    && (Waitable(s'.receiver) ==>
          if turn.Register? then s'.registrations == s.registrations + 1 && !s'.woken
          else Waitable(s.receiver) && s'.registrations == s.registrations && s'.woken == s.woken)
  }

  lemma LookLast<V>(s: State<V>, turn: Turn)
    requires MayTurn(s.receiver, turn) && Takes(turn)
    ensures WaitsOn(s, ActLook(s, turn), turn)
  {
  }

  lemma ElseLast<V>(s: State<V>, turn: Turn)
    requires MayTurn(s.receiver, turn) && !Takes(turn)
    ensures WaitsOn(s, ActElse(s, turn), turn)
  {
  }

  lemma ReceiverLast<V>(s: State<V>, turn: Turn)
    requires MayTurn(s.receiver, turn)
    ensures WaitsOn(s, ActReceiver(s, turn), turn)
  {
    hide WaitsOn, MayTurn, ActLook, ActElse;
    if Takes(turn) { LookLast(s, turn); } else { ElseLast(s, turn); }
  }

  lemma {:induction false} RunKeepsLast<V(!new)>(capacity: nat, states: seq<State<V>>, steps: seq<Step<V>>, i: nat)
    requires Run(capacity, states, steps) && i < |states|
    ensures LastOk(states[i])
    decreases i
  {
    hide LastOk, Act;
    if i == 0 {
      LastAtFirst<V>(capacity);
    } else {
      RunKeepsLast(capacity, states, steps, i - 1);
      RunKeeps(capacity, states, steps, i - 1);
      assert Enabled(states[i - 1], steps[i - 1]);
      LastKeeps(states[i - 1], steps[i - 1]);
    }
  }

  lemma LastAtFirst<V>(capacity: nat)
    ensures LastOk(Init<V>(capacity))
  {
  }

  /** The last handle's ring reaches a sleeping receiver exactly when it came after
      that receiver's registration: the registration was already the current one. */
  lemma LastRingReaches<V(!new)>(capacity: nat, states: seq<State<V>>, steps: seq<Step<V>>, i: nat)
    requires Run(capacity, states, steps) && i < |states|
    requires states[i].receiver.Asleep? && states[i].lastRing.Some?
    ensures states[i].woken <==> states[i].lastRing.value == states[i].registrations
  {
    RunKeeps(capacity, states, steps, i);
    RunKeepsLast(capacity, states, steps, i);
  }

  /** And it can come before: the receiver counts one producer, the last handle goes
      and rings nobody, and the receiver registers and sleeps with no handle left. */
  lemma LastRingCanBeMissed() returns (states: seq<State<nat>>, steps: seq<Step<nat>>)
    ensures Run(1, states, steps)
    ensures var s := states[|steps|];
      s.receiver.Asleep? && !s.woken && s.senders == map[] && !s.lastOut && s.lastRing.Some?
  {
    steps := [Receive(Poll), Receive(FirstTake), Receive(CountProducers), Send(0, Drop), RingLast,
              Receive(Register), Receive(Park), Receive(SecondTake)];
    states := [Init(1)];
    var i := 0;
    while i < |steps|
      invariant 0 <= i <= |steps| && |states| == i + 1 && states[0] == Init(1)
      invariant forall k :: 0 <= k < i ==> Enabled(states[k], steps[k]) && states[k + 1] == Act(states[k], steps[k])
      invariant MissedSoFar(states[i], i)
    {
      assert Enabled(states[i], steps[i]);
      states := states + [Act(states[i], steps[i])];
      i := i + 1;
    }
  }

  /** The states of that run. */
  ghost predicate MissedSoFar(s: State<nat>, i: int) {
    && s.ring == [] && s.capacity == 1 && s.registered == (i >= 6) && !s.woken
    && s.senders == (if i < 4 then map[0 := Sender(Rest, false)] else map[])
    && s.producers == (if i < 4 then 1 else 0)
    && s.lastOut == (i == 4) && s.lastRing == (if i < 5 then None else Some(0))
    && s.registrations == (if i < 6 then 0 else 1)
    && s.receiver == (if i == 0 then Running else if i == 1 then Polling else if i == 2 then Empty
                      else if i <= 5 then Counted(false) else if i == 6 then Registered(false)
                      else if i == 7 then Parked(false) else Asleep)
  }
}
