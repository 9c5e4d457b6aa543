/** The two-bit waker cell as an interleaving of its atomic steps: one registrar,
    any number of concurrent wake calls. Wakers are named by the registration that
    stored them, so a larger name is a later waker of the same owner. */
module WakerCell {
  import opened Options

  /** Where the registrar is in `register`; `n` is the registration it is making. */
  datatype Registrar =
    | Away
    | Starting(n: nat)
    | Storing(n: nat)
    | Stored(n: nat)
    | Honouring(n: nat)
    | Pulled(n: nat, pending: Option<nat>)
    | Delivering(n: nat, pending: Option<nat>)
    | Bypassing(n: nat)

  /** Where a wake call is; `since` registrations had completed when it began. */
  datatype Call =
    | Begun(since: nat)
    | Inside(since: nat)
    | Holding(since: nat, taken: Option<nat>)
    | Leaving(since: nat, taken: Option<nat>)
    | Done(since: nat)

  datatype State = State(
    registering: bool,
    waking: bool,
    cell: Option<nat>,
    registrar: Registrar,
    calls: map<nat, Call>,
    // History: registrations completed, and wakers woken.
    completed: nat,
    woken: set<nat>)

  datatype Step =
    | BeginRegister | Lock | Store | Release | TakePending | Swap | Deliver | Bypass
    | BeginWake(call: nat) | FetchOr(call: nat) | TakeCell(call: nat) | FetchAnd(call: nat) | Wake(call: nat)

  const INIT: State := State(false, false, None, Away, map[], 0, {})

  predicate Enabled(s: State, step: Step) {
    match step
    case BeginRegister => s.registrar.Away?
    case Lock => s.registrar.Starting?
    case Store => s.registrar.Storing?
    case Release => s.registrar.Stored?
    case TakePending => s.registrar.Honouring?
    case Swap => s.registrar.Pulled?
    case Deliver => s.registrar.Delivering?
    case Bypass => s.registrar.Bypassing?
    case BeginWake(t) => t !in s.calls
    case FetchOr(t) => t in s.calls && s.calls[t].Begun?
    case TakeCell(t) => t in s.calls && s.calls[t].Inside?
    case FetchAnd(t) => t in s.calls && s.calls[t].Holding?
    case Wake(t) => t in s.calls && s.calls[t].Leaving?
  }

  function Named(w: Option<nat>): set<nat> {
    if w.Some? then {w.value} else {}
  }

  function Go(s: State, t: nat, c: Call): State {
    s.(calls := s.calls[t := c])
  }

  /** One atomic step, as the code takes it. */
  function Act(s: State, step: Step): State
    requires Enabled(s, step)
  {
    match step
    case BeginRegister => s.(registrar := Starting(s.completed))
    case Lock =>
      if !s.registering && !s.waking then s.(registering := true, registrar := Storing(s.registrar.n))
      else s.(registrar := Bypassing(s.registrar.n))
    case Store => s.(cell := Some(s.registrar.n), registrar := Stored(s.registrar.n))
    case Release =>
      if s.registering && !s.waking then s.(registering := false, registrar := Away, completed := s.completed + 1)
      else s.(registrar := Honouring(s.registrar.n))
    case TakePending => s.(cell := None, registrar := Pulled(s.registrar.n, s.cell))
    case Swap => s.(registering := false, waking := false, registrar := Delivering(s.registrar.n, s.registrar.pending))
    case Deliver =>
      s.(registrar := Away, completed := s.completed + 1, woken := s.woken + Named(s.registrar.pending))
    case Bypass => s.(registrar := Away, completed := s.completed + 1, woken := s.woken + {s.registrar.n})
    case BeginWake(t) => Go(s, t, Begun(s.completed))
    case FetchOr(t) =>
      var since := s.calls[t].since;
      Go(s.(waking := true), t, if !s.registering && !s.waking then Inside(since) else Done(since))
    case TakeCell(t) => Go(s.(cell := None), t, Holding(s.calls[t].since, s.cell))
    case FetchAnd(t) => Go(s.(waking := false), t, Leaving(s.calls[t].since, s.calls[t].taken))
    case Wake(t) => Go(s.(woken := s.woken + Named(s.calls[t].taken)), t, Done(s.calls[t].since))
  }

  // ---- Invariant -----------------------------------------------------------------------------

  /** The registrar may touch the cell. */
  predicate Owns(r: Registrar) { r.Storing? || r.Stored? || r.Honouring? || r.Pulled? }

  /** A wake call may touch the cell. */
  predicate InCell(s: State, t: nat) { t in s.calls && (s.calls[t].Inside? || s.calls[t].Holding?) }

  /** At most one thread has the cell, and the two bits say which kind it is. */
  ghost predicate Exclusive(s: State) {
    && (s.registering <==> Owns(s.registrar))
    && (forall t, u :: InCell(s, t) && InCell(s, u) ==> t == u)
    && (s.waking && !s.registering ==> exists t :: InCell(s, t))
    && (forall t :: InCell(s, t) ==> s.waking && !s.registering)
    && (s.registrar.Honouring? || s.registrar.Pulled? ==> s.waking)
  }

  ghost predicate CellOk(s: State) {
    && (!s.registrar.Away? ==> s.registrar.n == s.completed)
    && (s.registrar.Stored? || s.registrar.Honouring? ==> s.cell == Some(s.registrar.n))
    && (s.registrar.Pulled? || s.registrar.Delivering? ==> s.registrar.pending == Some(s.registrar.n))
    && (forall t :: t in s.calls && s.calls[t].Holding? ==> s.cell == None)
    && (forall t :: t in s.calls ==> s.calls[t].since <= s.completed)
  }

  predicate AtLeast(w: Option<nat>, k: nat) { w.Some? && w.value >= k }

  ghost predicate Woken(s: State, k: nat) { exists w :: w in s.woken && w >= k }

  /** A thread that has not finished has waker `k`, or a later one, in hand. */
  ghost predicate Carried(s: State, k: nat) {
    || ((s.registrar.Pulled? || s.registrar.Delivering?) && AtLeast(s.registrar.pending, k))
    || (s.registrar.Bypassing? && s.registrar.n >= k)
    || (exists t :: t in s.calls && (s.calls[t].Holding? || s.calls[t].Leaving?) && AtLeast(s.calls[t].taken, k))
  }

  /** A thread that has not finished is bound to take waker `k`, or a later one. */
  ghost predicate Committed(s: State, k: nat) {
    || (s.waking && (s.registrar.Storing? || s.registrar.Stored? || s.registrar.Honouring?) && s.registrar.n >= k)
    || (AtLeast(s.cell, k) && exists t :: t in s.calls && s.calls[t].Inside?)
  }

  /** The last completed registration's waker is in the cell, in hand, or woken. */
  ghost predicate Conserved(s: State) {
    s.completed > 0 ==>
      AtLeast(s.cell, s.completed - 1) || Carried(s, s.completed - 1) || Woken(s, s.completed - 1)
  }

  /** A wake call past its first step has seen to every registration completed
      before it began. */
  ghost predicate Served(s: State, k: nat) {
    Woken(s, k) || Carried(s, k) || Committed(s, k)
  }

  ghost predicate ServedAll(s: State) {
    forall t :: t in s.calls && !s.calls[t].Begun? && s.calls[t].since > 0 ==> Served(s, s.calls[t].since - 1)
  }

  ghost predicate Inv(s: State) {
    Exclusive(s) && CellOk(s) && Conserved(s) && ServedAll(s)
  }

  // ---- Every step keeps the invariant -----------------------------------------------------------

  lemma InitOk()
    ensures Inv(INIT)
  {
  }

  lemma ExclusiveKeeps(s: State, step: Step)
    requires Exclusive(s) && Enabled(s, step)
    ensures Exclusive(Act(s, step))
  {
    var s' := Act(s, step);
    if s.waking && !s.registering {
      var t :| InCell(s, t);
      assert (step.FetchAnd? && step.call == t) || InCell(s', t);
    }
    if step.FetchOr? { assert InCell(s', step.call) <==> !s.registering && !s.waking; }
    if step.FetchAnd? || step.TakeCell? { assert InCell(s, step.call); }
    assert forall t :: InCell(s', t) ==> InCell(s, t) || (step == FetchOr(t) && !s.registering && !s.waking);
  }

  lemma CellKeeps(s: State, step: Step)
    requires Exclusive(s) && CellOk(s) && Enabled(s, step)
    ensures CellOk(Act(s, step))
  {
    forall t | t in s.calls && s.calls[t].Holding? ensures InCell(s, t) {}
    if step.TakeCell? { assert InCell(s, step.call); }
  }

  /** Whoever holds a waker keeps it or wakes with it. */
  lemma CarriedKeeps(s: State, step: Step, k: nat)
    requires CellOk(s) && Enabled(s, step) && Carried(s, k)
    ensures Carried(Act(s, step), k) || Woken(Act(s, step), k)
  {
    var s' := Act(s, step);
    if t :| t in s.calls && (s.calls[t].Holding? || s.calls[t].Leaving?) && AtLeast(s.calls[t].taken, k) {
      if step == Wake(t) {
        assert s.calls[t].taken.value in s'.woken;
      } else {
        assert s'.calls[t].taken == s.calls[t].taken;
      }
    } else if step.Deliver? {
      assert s.registrar.pending.value in s'.woken;
    } else if step.Bypass? {
      assert s.registrar.n in s'.woken;
    }
  }

  lemma WokenKeeps(s: State, step: Step, k: nat)
    requires Enabled(s, step) && Woken(s, k)
    ensures Woken(Act(s, step), k)
  {
  }

  /** Whoever is bound to take a waker takes it before letting the cell go. */
  lemma CommittedKeeps(s: State, step: Step, k: nat)
    requires Exclusive(s) && CellOk(s) && Enabled(s, step) && Committed(s, k)
    ensures Committed(Act(s, step), k) || Carried(Act(s, step), k)
  {
    var s' := Act(s, step);
    if step.FetchAnd? || step.TakeCell? { assert InCell(s, step.call); }
    if !(s.waking && (s.registrar.Storing? || s.registrar.Stored? || s.registrar.Honouring?) && s.registrar.n >= k) {
      var t :| t in s.calls && s.calls[t].Inside?;
      assert InCell(s, t);
      if step == TakeCell(t) {
        assert s'.calls[t].taken == s.cell;
      } else {
        assert s'.calls[t].Inside?;
      }
    }
  }

  lemma ServedKeeps(s: State, step: Step, k: nat)
    requires Exclusive(s) && CellOk(s) && Enabled(s, step) && Served(s, k)
    ensures Served(Act(s, step), k)
  {
    if Woken(s, k) {
      WokenKeeps(s, step, k);
    } else if Carried(s, k) {
      CarriedKeeps(s, step, k);
    } else {
      CommittedKeeps(s, step, k);
    }
  }

  lemma ConservedKeeps(s: State, step: Step)
    requires Inv(s) && Enabled(s, step)
    ensures Conserved(Act(s, step))
  {
    var s' := Act(s, step);
    if s'.completed > s.completed {
      if step.Deliver? { assert s.registrar.n in s'.woken; }
      if step.Bypass? { assert s.registrar.n in s'.woken; }
    } else if s.completed > 0 {
      var k := s.completed - 1;
      if Woken(s, k) {
        WokenKeeps(s, step, k);
      } else if Carried(s, k) {
        CarriedKeeps(s, step, k);
      } else if step.TakeCell? {
        assert s'.calls[step.call].taken == s.cell;
      }
    }
  }

  /** The step that begins to count a wake call finds the last completed
      registration's waker seen to, or takes charge of it. */
  lemma FetchOrServes(s: State, t: nat)
    requires Inv(s) && Enabled(s, FetchOr(t)) && s.calls[t].since > 0
    ensures Served(Act(s, FetchOr(t)), s.calls[t].since - 1)
  {
    var (s', k) := (Act(s, FetchOr(t)), s.calls[t].since - 1);
    if Woken(s, s.completed - 1) {
      WokenKeeps(s, FetchOr(t), s.completed - 1);
    } else if Carried(s, s.completed - 1) {
      CarriedKeeps(s, FetchOr(t), s.completed - 1);
    } else if !s.registering {
      if s.waking {
        var u :| InCell(s, u);
        assert s.calls[u].Inside? && s'.calls[u].Inside?;
      } else {
        assert s'.calls[t].Inside?;
      }
    }
  }

  lemma StepKeeps(s: State, step: Step)
    requires Inv(s) && Enabled(s, step)
    ensures Inv(Act(s, step))
  {
    hide Served, Conserved, Exclusive, CellOk;
    var s' := Act(s, step);
    ExclusiveKeeps(s, step);
    CellKeeps(s, step);
    ConservedKeeps(s, step);
    forall t | t in s'.calls && !s'.calls[t].Begun? && s'.calls[t].since > 0
      ensures Served(s', s'.calls[t].since - 1)
    {
      if step == FetchOr(t) {
        FetchOrServes(s, t);
      } else {
        ServedKeeps(s, step, s.calls[t].since - 1);
      }
    }
  }

  // ---- Whole runs -----------------------------------------------------------------------------------

  ghost predicate Run(states: seq<State>, steps: seq<Step>) {
    && |states| == |steps| + 1 && states[0] == INIT
    && (forall i :: 0 <= i < |steps| ==> Enabled(states[i], steps[i]) && states[i + 1] == Act(states[i], steps[i]))
  }

  lemma {:induction false} RunKeeps(states: seq<State>, steps: seq<Step>, i: nat)
    requires Run(states, steps) && i < |states|
    ensures Inv(states[i])
    decreases i
  {
    if i == 0 {
      InitOk();
    } else {
      RunKeeps(states, steps, i - 1);
      assert Enabled(states[i - 1], steps[i - 1]);
      StepKeeps(states[i - 1], steps[i - 1]);
    }
  }

  /** No two threads are ever in the cell, whichever kind they are. */
  lemma OneThreadInTheCell(states: seq<State>, steps: seq<Step>, i: nat, t: nat, u: nat)
    requires Run(states, steps) && i < |states|
    ensures InCell(states[i], t) && InCell(states[i], u) ==> t == u
    ensures InCell(states[i], t) ==> !Owns(states[i].registrar)
  {
    RunKeeps(states, steps, i);
  }

  /** A wake call that began after registration `k` completed ends with that waker,
      or a later one of the same owner, woken, or owed by a thread still at work. */
  lemma NoWakeIsLost(states: seq<State>, steps: seq<Step>, i: nat, t: nat)
    requires Run(states, steps) && i < |states|
    requires t in states[i].calls && states[i].calls[t].Done? && states[i].calls[t].since > 0
    ensures var k := states[i].calls[t].since - 1;
      Woken(states[i], k) || Carried(states[i], k) || Committed(states[i], k)
  {
    RunKeeps(states, steps, i);
  }

  /** Once every thread is done, it is woken. */
  lemma QuietMeansWoken(states: seq<State>, steps: seq<Step>, i: nat, t: nat)
    requires Run(states, steps) && i < |states| && states[i].registrar.Away?
    requires forall u :: u in states[i].calls ==> states[i].calls[u].Done?
    requires t in states[i].calls && states[i].calls[t].since > 0
    ensures Woken(states[i], states[i].calls[t].since - 1)
  {
    NoWakeIsLost(states, steps, i, t);
  }

  /** With one registrar, registration only ever finds the cell free or being woken:
      the branch for a second registrar is never taken. */
  lemma RegistrarIsAlone(states: seq<State>, steps: seq<Step>, i: nat)
    requires Run(states, steps) && i < |states| && states[i].registrar.Starting?
    ensures !states[i].registering
  {
    RunKeeps(states, steps, i);
  }
}
