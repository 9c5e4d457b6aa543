/** The accounts example: a store that applies each request id at most once, a cache
    and resident copies that may lag it, and the processor between them. Every fault
    is a free choice at its own call site. */
module Accounts {
  import opened Options
  import opened MachineWords

  const I64_MIN: int := -0x8000_0000_0000_0000
  const I64_MAX: int := 0x7FFF_FFFF_FFFF_FFFF

  type I64 = x: int | I64_MIN <= x <= I64_MAX witness 0

  datatype Account = Account(balance: int, version: nat)

  const EMPTY: Account := Account(0, 0)

  datatype Mutation = Delta(amount: I64) | SetBalance(balance: I64)

  datatype Op = Debit(amount: I64) | Credit(amount: I64) | Balance | Revalue(scenarios: nat)

  datatype Request = Request(id: nat, account: nat, op: Op)

  datatype Error =
    | PoolExhausted | ConnectionReset | RequestConflict | VersionConflict | BalanceOverflow | VersionOverflow
    | NegativeAmount | ComputeFailed | InDoubt

  datatype Reply = Ok(balance: int) | Duplicate(recorded: int) | Err(error: Error)

  datatype Commit = Committed(account: Account, duplicate: bool) | Unknown | Refused(error: Error)

  /** What the processor tells the scheduler about the state it was given. */
  datatype Outcome = Keep(account: Account) | Drop | Failed(failure: Error)

  /** The call sites at which a fault can fire. */
  datatype Site =
    | CacheGet | FirstAcquire | Load | FillCache | ComputeRun | InvalidateBefore | SecondAcquire
    | BeforeApply | AfterApply | CachePut | InvalidateAfter

  datatype Applied = Applied(account: nat, mutation: Mutation, result: Account)

  /** One durable application. */
  datatype Entry = Entry(request: nat, mutation: Mutation)

  // ---- The durable history and its meaning ---------------------------------------------------------

  function Mutated(balance: int, mutation: Mutation): int {
    match mutation
    case Delta(d) => balance + d
    case SetBalance(b) => b
  }

  /** The account after the first `n` applications. */
  function At(h: seq<Entry>, n: nat): (a: Account)
    requires n <= |h|
    ensures a.version == n
  {
    if n == 0 then EMPTY else Account(Mutated(At(h, n - 1).balance, h[n - 1].mutation), n)
  }

  lemma {:induction false} AtPrefix(h: seq<Entry>, e: Entry, n: nat)
    requires n <= |h|
    ensures At(h + [e], n) == At(h, n)
  {
    if n > 0 { AtPrefix(h, e, n - 1); }
  }

  function HistoryOf(history: map<nat, seq<Entry>>, id: nat): seq<Entry> {
    if id in history then history[id] else []
  }

  function AccountOf(accounts: map<nat, Account>, id: nat): Account {
    if id in accounts then accounts[id] else EMPTY
  }

  /** An account as it durably was at its version. */
  ghost predicate Snapshot(history: map<nat, seq<Entry>>, id: nat, a: Account) {
    a.version <= |HistoryOf(history, id)| && a == At(HistoryOf(history, id), a.version)
  }

  /** Version counts the applications, balance is their fold, and nothing overflowed. */
  ghost predicate AccountsOk(accounts: map<nat, Account>, history: map<nat, seq<Entry>>) {
    && (forall id :: AccountOf(accounts, id) == At(HistoryOf(history, id), |HistoryOf(history, id)|))
    && (forall id :: I64_MIN <= AccountOf(accounts, id).balance <= I64_MAX &&
         AccountOf(accounts, id).version <= U64_MAX)
  }

  /** A recorded request is one application of the history. */
  ghost predicate RecordOk(r: nat, rec: Applied, history: map<nat, seq<Entry>>) {
    var (h, v) := (HistoryOf(history, rec.account), rec.result.version);
    0 < v <= |h| && h[v - 1] == Entry(r, rec.mutation) && rec.result == At(h, v)
  }

  /** Application `i` of an account is recorded under its request. */
  ghost predicate EntryOk(requests: map<nat, Applied>, h: seq<Entry>, id: nat, i: nat)
    requires i < |h|
  {
    h[i].request in requests && requests[h[i].request].account == id && requests[h[i].request].result.version == i + 1
  }

  /** Recorded requests and applications are the same things. */
  ghost predicate RequestsOk(requests: map<nat, Applied>, history: map<nat, seq<Entry>>) {
    && (forall r :: r in requests ==> RecordOk(r, requests[r], history))
    && (forall id, i :: 0 <= i < |HistoryOf(history, id)| ==> EntryOk(requests, HistoryOf(history, id), id, i))
  }

  ghost predicate StoreOk(accounts: map<nat, Account>, requests: map<nat, Applied>, history: map<nat, seq<Entry>>) {
    AccountsOk(accounts, history) && RequestsOk(requests, history)
  }

  ghost predicate CopiesOk(copies: map<nat, Account>, history: map<nat, seq<Entry>>) {
    forall id :: id in copies ==> Snapshot(history, id, copies[id])
  }

  /** One application: a fresh request on one account. */
  function Extended(history: map<nat, seq<Entry>>, id: nat, e: Entry): map<nat, seq<Entry>> {
    history[id := HistoryOf(history, id) + [e]]
  }

  lemma SnapshotKeeps(history: map<nat, seq<Entry>>, id: nat, e: Entry, other: nat, a: Account)
    requires Snapshot(history, other, a)
    ensures Snapshot(Extended(history, id, e), other, a)
  {
    if other == id { AtPrefix(HistoryOf(history, id), e, a.version); }
  }

  lemma CopiesKeep(copies: map<nat, Account>, history: map<nat, seq<Entry>>, id: nat, e: Entry)
    requires CopiesOk(copies, history)
    ensures CopiesOk(copies, Extended(history, id, e))
  {
    forall k | k in copies ensures Snapshot(Extended(history, id, e), k, copies[k]) {
      SnapshotKeeps(history, id, e, k, copies[k]);
    }
  }

  lemma RecordKeeps(r: nat, rec: Applied, history: map<nat, seq<Entry>>, id: nat, e: Entry)
    requires RecordOk(r, rec, history)
    ensures RecordOk(r, rec, Extended(history, id, e))
  {
    if rec.account == id { AtPrefix(HistoryOf(history, id), e, rec.result.version); }
  }

  lemma NewRecord(history: map<nat, seq<Entry>>, id: nat, e: Entry)
    ensures var h := HistoryOf(history, id);
      var a := Account(Mutated(At(h, |h|).balance, e.mutation), |h| + 1);
      RecordOk(e.request, Applied(id, e.mutation, a), Extended(history, id, e)) && a == At(h + [e], |h| + 1)
  {
    AtPrefix(HistoryOf(history, id), e, |HistoryOf(history, id)|);
  }

  lemma ApplyRequests(requests: map<nat, Applied>, history: map<nat, seq<Entry>>, id: nat, e: Entry, rec: Applied)
    requires RequestsOk(requests, history) && e.request !in requests
    requires rec.account == id && rec.result.version == |HistoryOf(history, id)| + 1
    requires RecordOk(e.request, rec, Extended(history, id, e))
    ensures RequestsOk(requests[e.request := rec], Extended(history, id, e))
  {
    hide RecordOk;
    var history' := Extended(history, id, e);
    var requests' := requests[e.request := rec];
    forall r | r in requests' ensures RecordOk(r, requests'[r], history') {
      if r != e.request { RecordKeeps(r, requests[r], history, id, e); }
    }
    forall k, i | 0 <= i < |HistoryOf(history', k)| ensures EntryOk(requests', HistoryOf(history', k), k, i) {
      if !(k == id && i == |HistoryOf(history, id)|) {
        assert EntryOk(requests, HistoryOf(history, k), k, i);
        assert HistoryOf(history', k)[i] == HistoryOf(history, k)[i];
      }
    }
  }

  lemma ApplyAccounts(accounts: map<nat, Account>, history: map<nat, seq<Entry>>, id: nat, e: Entry, a: Account)
    requires AccountsOk(accounts, history)
    requires I64_MIN <= a.balance <= I64_MAX && a.version <= U64_MAX
    requires a == At(HistoryOf(history, id) + [e], |HistoryOf(history, id)| + 1)
    ensures AccountsOk(accounts[id := a], Extended(history, id, e))
  {
    var accounts' := accounts[id := a];
    forall k: nat
      ensures AccountOf(accounts', k) ==
        At(HistoryOf(Extended(history, id, e), k), |HistoryOf(Extended(history, id, e), k)|)
    {
      if k != id { assert AccountOf(accounts', k) == AccountOf(accounts, k); }
    }
    forall k: nat ensures I64_MIN <= AccountOf(accounts', k).balance <= I64_MAX &&
      AccountOf(accounts', k).version <= U64_MAX {
      if k != id { assert AccountOf(accounts', k) == AccountOf(accounts, k); }
    }
  }

  lemma ApplyKeeps(accounts: map<nat, Account>, requests: map<nat, Applied>, history: map<nat, seq<Entry>>,
                   id: nat, r: nat, mutation: Mutation)
    requires StoreOk(accounts, requests, history) && r !in requests
    requires I64_MIN <= Mutated(AccountOf(accounts, id).balance, mutation) <= I64_MAX
    requires AccountOf(accounts, id).version < U64_MAX
    ensures var durable := AccountOf(accounts, id);
      var a := Account(Mutated(durable.balance, mutation), durable.version + 1);
      var history' := Extended(history, id, Entry(r, mutation));
      && StoreOk(accounts[id := a], requests[r := Applied(id, mutation, a)], history')
      && Snapshot(history', id, a)
  {
    hide RequestsOk, RecordOk;
    var e := Entry(r, mutation);
    var h := HistoryOf(history, id);
    assert AccountOf(accounts, id) == At(h, |h|);
    var a := Account(Mutated(At(h, |h|).balance, mutation), |h| + 1);
    NewRecord(history, id, e);
    ApplyRequests(requests, history, id, e, Applied(id, mutation, a));
    ApplyAccounts(accounts, history, id, e, a);
  }

  // ---- The store ---------------------------------------------------------------------------------------

  predicate InI64(x: int) { I64_MIN <= x <= I64_MAX }

  class SimStore {
    var accounts: map<nat, Account>
    var requests: map<nat, Applied>
    ghost var history: map<nat, seq<Entry>>

    ghost predicate Valid()
      reads this
    {
      StoreOk(accounts, requests, history)
    }

    constructor ()
      ensures Valid() && history == map[] && requests == map[] && accounts == map[]
    {
      accounts, requests, history := map[], map[], map[];
    }

    /** Apply a mutation unless its request id was applied before. Unless it is
        refused before it looks, the answer for a known id is the recorded one. */
    method Commit(r: nat, id: nat, current: Account, mutation: Mutation, faults: set<Site>) returns (out: Commit)
      requires Valid()
      modifies this
      ensures Valid()
      ensures (out.Committed? && !out.duplicate) || out.Unknown? ==>
        var before, after := old(AccountOf(accounts, id)), AccountOf(accounts, id);
        && r !in old(requests) && current.version == before.version && after.version == before.version + 1
        && (mutation.Delta? ==> after.balance == before.balance + mutation.amount)
        && (mutation.SetBalance? ==> after.balance == mutation.balance)
        && accounts == old(accounts)[id := after]
        && history == Extended(old(history), id, Entry(r, mutation))
        && requests == old(requests)[r := Applied(id, mutation, after)]
      ensures out.Committed? && !out.duplicate ==> out.account == AccountOf(accounts, id)
      ensures (out.Committed? && out.duplicate) || out.Refused? ==>
        accounts == old(accounts) && requests == old(requests) && history == old(history)
      ensures out.Committed? && out.duplicate ==>
        r in old(requests) && old(requests)[r].account == id && out.account == old(requests)[r].result
      ensures out.Unknown? ==> AfterApply in faults
      ensures out.Refused? ==>
        || out.error.ConnectionReset? || out.error.RequestConflict? || out.error.VersionConflict?
        || out.error.BalanceOverflow? || out.error.VersionOverflow?
      ensures BeforeApply !in faults && r in old(requests) ==>
        if old(requests)[r].account == id && old(requests)[r].mutation == mutation
        then out == Committed(old(requests)[r].result, true) else out == Refused(RequestConflict)
      ensures BeforeApply !in faults && r !in old(requests) ==>
        var before := old(AccountOf(accounts, id));
        var fits := mutation.Delta? ==>
                      -0x8000_0000_0000_0000 <= before.balance + mutation.amount <= 0x7FFF_FFFF_FFFF_FFFF;
        && (out == Refused(VersionConflict) <==> current.version != before.version)
        && (out == Refused(BalanceOverflow) <==> current.version == before.version && !fits)
        && (out == Refused(VersionOverflow) <==>
              current.version == before.version == 0xFFFF_FFFF_FFFF_FFFF && fits)
        && out != Refused(RequestConflict) && out != Refused(ConnectionReset)
    {
      hide StoreOk;
      if BeforeApply in faults { return Refused(ConnectionReset); }
      if r in requests {
        var prior := requests[r];
        if prior.account != id || prior.mutation != mutation { return Refused(RequestConflict); }
        return Committed(prior.result, true);
      }
      var durable := AccountOf(accounts, id);
      if durable.version != current.version { return Refused(VersionConflict); }
      Bounds(accounts, requests, history, id);
      if !InI64(Mutated(durable.balance, mutation)) { return Refused(BalanceOverflow); }
      if durable.version == U64_MAX { return Refused(VersionOverflow); }
      ApplyKeeps(accounts, requests, history, id, r, mutation);
      var account := Account(Mutated(durable.balance, mutation), durable.version + 1);
      accounts := accounts[id := account];
      requests := requests[r := Applied(id, mutation, account)];
      history := Extended(history, id, Entry(r, mutation));
      out := if AfterApply in faults then Unknown else Committed(account, false);
    }
  }

  lemma Bounds(accounts: map<nat, Account>, requests: map<nat, Applied>, history: map<nat, seq<Entry>>, id: nat)
    requires StoreOk(accounts, requests, history)
    ensures AccountOf(accounts, id).version <= U64_MAX
    ensures -0x8000_0000_0000_0000 <= AccountOf(accounts, id).balance <= 0x7FFF_FFFF_FFFF_FFFF
  {
  }

  class SimCache {
    var values: map<nat, Account>

    constructor ()
      ensures values == map[]
    {
      values := map[];
    }

    method Put(id: nat, account: Account, fails: bool)
      modifies this
      ensures values == if fails then old(values) else old(values)[id := account]
    {
      if !fails { values := values[id := account]; }
    }

    method Invalidate(id: nat, fails: bool)
      modifies this
      ensures values == if fails then old(values) else old(values) - {id}
    {
      if !fails { values := values - {id}; }
    }
  }

  // ---- The processor -----------------------------------------------------------------------------------

  /** What an operation writes to an account it holds, or the reply that ends it. */
  datatype Planned = Write(mutation: Mutation) | Answer(reply: Reply)

  /** `value` stands for the revaluation's result. */
  function Plan(account: Account, op: Op, value: I64, faults: set<Site>): Planned {
    match op
    case Balance => Answer(Ok(account.balance))
    case Debit(amount) => if amount < 0 then Answer(Err(NegativeAmount)) else Write(Delta(-amount))
    case Credit(amount) => if amount < 0 then Answer(Err(NegativeAmount)) else Write(Delta(amount))
    case Revalue(_) => if ComputeRun in faults then Answer(Err(ComputeFailed)) else Write(SetBalance(value))
  }

  /** Where the account worked on comes from: the resident copy, else the cached one if the
      cache answers, else the store, which also fills the cache. */
  predicate HeldFrom(held: Option<Account>, loaded: bool, error: Error, id: nat, faults: set<Site>,
                     resident: map<nat, Account>, cached: map<nat, Account>, cached': map<nat, Account>,
                     accounts: map<nat, Account>) {
    if id in resident then held == Some(resident[id]) && !loaded && cached' == cached
    else if CacheGet !in faults && id in cached then held == Some(cached[id]) && !loaded && cached' == cached
    else if FirstAcquire in faults then held.None? && error == PoolExhausted && cached' == cached
    else if Load in faults then held.None? && error == ConnectionReset && cached' == cached
    else
      var account := AccountOf(accounts, id);
      held == Some(account) && loaded && cached' == if FillCache in faults then cached else cached[id := account]
  }

  class AccountProcessor {
    const store: SimStore
    const cache: SimCache
    /** The deterministic revaluation of an account. */
    const revalue: (Account, nat) -> I64
    /** The state the scheduler holds between calls for an account. */
    var resident: map<nat, Account>

    ghost predicate Valid()
      reads this, store, cache
    {
      && store.Valid()
      && CopiesOk(cache.values, store.history) && CopiesOk(resident, store.history)
    }

    constructor (revalue: (Account, nat) -> I64)
      ensures Valid() && fresh(store) && fresh(cache) && store.history == map[] && store.requests == map[]
      ensures store.accounts == map[] && cache.values == map[] && resident == map[] && this.revalue == revalue
    {
      store := new SimStore();
      cache := new SimCache();
      this.revalue := revalue;
      resident := map[];
    }

    /** The account to work on: resident, else cached, else loaded; `loaded` says
        whether a session was acquired for it. */
    method Hold(id: nat, faults: set<Site>) returns (held: Option<Account>, loaded: bool, error: Error)
      requires Valid()
      modifies this, cache
      ensures Valid() && id !in resident
      ensures forall k :: k != id ==>
        (k in resident <==> k in old(resident)) && (k in resident ==> resident[k] == old(resident)[k])
      ensures held.Some? ==> Snapshot(store.history, id, held.value)
      ensures cache.values - {id} == old(cache.values) - {id}
      ensures id in old(resident) ==> held == Some(old(resident)[id])
      ensures id !in old(resident) && id !in old(cache.values) && held.Some? ==>
        held.value == AccountOf(store.accounts, id)
      ensures held.None? ==>
        (FirstAcquire in faults && error == PoolExhausted) || (Load in faults && error == ConnectionReset)
      ensures HeldFrom(held, loaded, error, id, faults, old(resident), old(cache.values), cache.values, store.accounts)
    {
      loaded, error := false, InDoubt;
      if id in resident {
        held := Some(resident[id]);
        assert Snapshot(store.history, id, resident[id]);
        resident := resident - {id};
        return;
      }
      if CacheGet !in faults && id in cache.values {
        held := Some(cache.values[id]);
        return;
      }
      if FirstAcquire in faults { return None, false, PoolExhausted; }
      if Load in faults { return None, false, ConnectionReset; }
      var account := AccountOf(store.accounts, id);
      DurableIsSnapshot(store.accounts, store.requests, store.history, id);
      cache.Put(id, account, FillCache in faults);
      held, loaded := Some(account), true;
    }

    /** What the revaluation of a held account comes to; other operations ignore it. */
    function Value(account: Account, op: Op): I64 {
      if op.Revalue? then revalue(account, op.scenarios) else 0
    }

    function Planned(account: Account, op: Op, faults: set<Site>): Planned {
      Plan(account, op, Value(account, op), faults)
    }

    /** Invalidate, commit, and put back what the commit says: `applied` when the
        mutation took effect. */
    method WriteThrough(r: nat, id: nat, account: Account, mutation: Mutation, loaded: bool, faults: set<Site>)
      returns (reply: Reply, outcome: Outcome, ghost applied: bool)
      requires Valid() && Snapshot(store.history, id, account)
      modifies store, cache
      ensures Valid()
      ensures outcome.Keep? ==> Snapshot(store.history, id, outcome.account)
      ensures !applied ==>
        store.history == old(store.history) && store.requests == old(store.requests) &&
          store.accounts == old(store.accounts)
      ensures applied ==>
        var after := AccountOf(store.accounts, id);
        && r !in old(store.requests) && account == old(AccountOf(store.accounts, id))
        && after.version == account.version + 1
        && (mutation.Delta? ==> after.balance == account.balance + mutation.amount)
        && (mutation.SetBalance? ==> after.balance == mutation.balance)
        && store.accounts == old(store.accounts)[id := after]
        && store.history == Extended(old(store.history), id, Entry(r, mutation))
        && store.requests == old(store.requests)[r := Applied(id, mutation, after)]
        && (reply == Ok(after.balance) || reply == Err(InDoubt))
      ensures !applied ==> !reply.Ok? && reply != Err(InDoubt)
      ensures reply.Duplicate? ==> r in old(store.requests) && reply.recorded == old(store.requests)[r].result.balance
      ensures reply == Err(InDoubt) ==> outcome == Failed(InDoubt)
      ensures reply == Err(VersionConflict) ==> outcome == Failed(VersionConflict)
      ensures reply.Ok? ==> outcome == Keep(AccountOf(store.accounts, id))
      ensures reply.Duplicate? ==>
        var recorded := old(store.requests)[r].result;
        outcome == Keep(if recorded.version >= account.version then recorded else account)
      ensures reply.Err? && reply.error != InDoubt && reply.error != VersionConflict ==> outcome == Keep(account)
      // What the cache is left with: the copy kept, unless the write of it fails, and then
      // nothing unless taking it out fails as well. Other accounts are not touched.
      ensures cache.values - {id} == old(cache.values) - {id}
      ensures (reply.Ok? || reply.Duplicate?) && CachePut !in faults ==>
        id in cache.values && outcome == Keep(cache.values[id])
      ensures reply == Err(PoolExhausted) && InvalidateBefore !in faults ==> id !in cache.values
      ensures InvalidateAfter !in faults && reply.Err? && reply.error != PoolExhausted ==> id !in cache.values
      ensures InvalidateAfter !in faults && CachePut in faults && !reply.Err? ==> id !in cache.values
      ensures faults == {} && r in old(store.requests) ==>
        if old(store.requests)[r].account == id && old(store.requests)[r].mutation == mutation
        then reply.Duplicate? else reply == Err(RequestConflict)
      ensures faults == {} && r !in old(store.requests) ==>
        (reply == Err(VersionConflict) <==> account.version != old(AccountOf(store.accounts, id)).version)
      ensures (faults == {} && r !in old(store.requests) &&
        account.version == old(AccountOf(store.accounts, id)).version
               && account.version < 0xFFFF_FFFF_FFFF_FFFF
               && (mutation.Delta? ==>
                     -0x8000_0000_0000_0000 <= old(AccountOf(store.accounts, id)).balance + mutation.amount
                       <= 0x7FFF_FFFF_FFFF_FFFF))
        ==> applied && reply.Ok?
    {
      hide StoreOk, Snapshot, Extended, Mutated, CopiesOk, AccountOf;
      applied := false;
      CopiesWithout(cache.values, store.history, id);
      cache.Invalidate(id, InvalidateBefore in faults);
      if !loaded && SecondAcquire in faults { return Err(PoolExhausted), Keep(account), false; }
      ghost var history0 := store.history;
      var out := store.Commit(r, id, account, mutation, faults);
      applied := (out.Committed? && !out.duplicate) || out.Unknown?;
      if applied {
        CurrentIsDurable(old(store.accounts), old(store.requests), history0, id, account);
        CopiesKeep(cache.values, history0, id, Entry(r, mutation));
        CopiesKeep(resident, history0, id, Entry(r, mutation));
        SnapshotKeeps(history0, id, Entry(r, mutation), id, account);
      }
      match out {
        case Committed(committed, duplicate) =>
          CommittedIsSnapshot(store.accounts, store.requests, store.history, id, r, committed, duplicate);
          var kept := if duplicate && account.version > committed.version then account else committed;
          CopiesWith(cache.values, store.history, id, kept);
          cache.Put(id, kept, CachePut in faults);
          CopiesWithout(cache.values, store.history, id);
          if CachePut in faults { cache.Invalidate(id, InvalidateAfter in faults); }
          reply := if duplicate then Duplicate(committed.balance) else Ok(committed.balance);
          outcome := Keep(kept);
        case Unknown =>
          CopiesWithout(cache.values, store.history, id);
          cache.Invalidate(id, InvalidateAfter in faults);
          reply, outcome := Err(InDoubt), Failed(InDoubt);
        case Refused(error) =>
          CopiesWithout(cache.values, store.history, id);
          cache.Invalidate(id, InvalidateAfter in faults);
          reply := Err(error);
          outcome := if error == VersionConflict then Failed(VersionConflict) else Keep(account);
      }
    }

    /** Everything the service does with one request. `held` is the account it worked
        on, and `applied` says whether its mutation took effect. */
    method Process(request: Request, faults: set<Site>)
      returns (reply: Reply, ghost held: Option<Account>, ghost applied: bool)
      requires Valid()
      modifies this, store, cache
      ensures Valid()
      // The account worked on was durable at its version.
      ensures held.Some? ==> Snapshot(old(store.history), request.account, held.value)
      ensures request.account in old(resident) ==> held == Some(old(resident)[request.account])
      // At most one application: of a request never applied before, on the account as it durably was.
      ensures !applied ==>
        store.history == old(store.history) && store.requests == old(store.requests) &&
          store.accounts == old(store.accounts)
      ensures applied ==>
        var before := old(AccountOf(store.accounts, request.account));
        var after := AccountOf(store.accounts, request.account);
        && request.id !in old(store.requests) && held == Some(before) && after.version == before.version + 1
        && store.accounts == old(store.accounts)[request.account := after]
        && (reply == Ok(after.balance) || reply == Err(InDoubt))
        && match request.op
           case Debit(amount) => amount >= 0 && after.balance == before.balance - amount
           case Credit(amount) => amount >= 0 && after.balance == before.balance + amount
           case Revalue(n) => ComputeRun !in faults && after.balance == revalue(before, n)
           case Balance => false
      // The application is recorded: its mutation is what the balances say.
      ensures applied ==>
        && request.id in store.requests && request.id !in old(store.requests)
        && var rec := store.requests[request.id];
           && rec.account == request.account && rec.result == AccountOf(store.accounts, request.account)
           && (if request.op.Revalue? then rec.mutation == SetBalance(revalue(held.value, request.op.scenarios))
               else rec.mutation == Delta(if request.op.Debit? then -request.op.amount else request.op.amount))
           && store.requests == old(store.requests)[request.id := rec]
           && store.history == Extended(old(store.history), request.account, Entry(request.id, rec.mutation))
      // A read answers the account held, a negative amount or a failed computation is refused.
      ensures held.Some? && request.op.Balance? ==> reply == Ok(held.value.balance)
      ensures held.Some? && (request.op.Debit? || request.op.Credit?) && request.op.amount < 0 ==>
        reply == Err(NegativeAmount)
      ensures held.Some? && request.op.Revalue? && ComputeRun in faults ==> reply == Err(ComputeFailed)
      // A duplicate answers the recorded balance, and every error but an unknown outcome
      // means that nothing was applied.
      ensures reply.Ok? ==> applied || request.op.Balance?
      ensures reply == Err(InDoubt) ==> applied
      ensures reply.Duplicate? ==>
        && request.id in old(store.requests) && held.Some?
        && reply.recorded == old(store.requests)[request.id].result.balance
      // What stays resident: nothing while the outcome is unknown or the copy was stale, else what
      // was applied, or the newer of what was recorded and what was held, or what was held.
      ensures forall k :: k != request.account ==>
        (k in resident <==> k in old(resident)) && (k in resident ==> resident[k] == old(resident)[k])
      ensures request.account in resident <==> held.Some? && reply != Err(InDoubt) && reply != Err(VersionConflict)
      ensures request.account in resident ==>
        resident[request.account] ==
          if applied then AccountOf(store.accounts, request.account)
          else if reply.Duplicate? && old(store.requests)[request.id].result.version >= held.value.version
          then old(store.requests)[request.id].result
          else held.value
      // The cache: what stays resident is cached after a write, unless that fails, and then nothing
      // is cached unless taking it out fails as well.
      ensures cache.values - {request.account} == old(cache.values) - {request.account}
      ensures (applied && reply.Ok?) || reply.Duplicate? ==>
        && (CachePut !in faults ==>
              request.account in cache.values && cache.values[request.account] == resident[request.account])
        && (CachePut in faults && InvalidateAfter !in faults ==> request.account !in cache.values)
      ensures (reply == Err(InDoubt) || reply == Err(VersionConflict)) && InvalidateAfter !in faults ==>
        request.account !in cache.values
      // Without faults: a replay is a duplicate exactly when it asks for what was recorded.
      ensures faults == {} ==> held.Some?
      ensures faults == {} && request.id in old(store.requests) ==>
        var prior := old(store.requests)[request.id];
        match request.op
        case Debit(amount) => amount >= 0 ==>
          if prior.account == request.account && prior.mutation == Delta(-amount)
          then reply == Duplicate(prior.result.balance) else reply == Err(RequestConflict)
        case Credit(amount) => amount >= 0 ==>
          if prior.account == request.account && prior.mutation == Delta(amount)
          then reply == Duplicate(prior.result.balance) else reply == Err(RequestConflict)
        case Revalue(n) =>
          if prior.account == request.account && prior.mutation == SetBalance(revalue(held.value, n))
          then reply == Duplicate(prior.result.balance) else reply == Err(RequestConflict)
        case Balance => true
      // Without faults: a fresh write on a current copy that overflows nothing is applied and answered.
      ensures (faults == {} && request.id !in old(store.requests)
               && held == Some(old(AccountOf(store.accounts, request.account)))
               && held.value.version < 0xFFFF_FFFF_FFFF_FFFF) ==>
        match request.op
        case Debit(amount) => 0 <= amount && -0x8000_0000_0000_0000 <= held.value.balance - amount ==>
          reply == Ok(held.value.balance - amount)
        case Credit(amount) => 0 <= amount && held.value.balance + amount <= 0x7FFF_FFFF_FFFF_FFFF ==>
          reply == Ok(held.value.balance + amount)
        case Revalue(n) => reply == Ok(revalue(held.value, n))
        case Balance => true
      // Without faults: a stale copy is refused and forgotten, and the next attempt reads afresh.
      ensures faults == {} && request.account !in old(cache.values) && request.account !in old(resident) ==>
        held == Some(old(AccountOf(store.accounts, request.account))) && reply != Err(VersionConflict)
    {
      hide StoreOk, Snapshot, Extended, Mutated, CopiesOk, AccountOf, HeldFrom;
      Bounds(store.accounts, store.requests, store.history, request.account);
      applied := false;
      var account, loaded, error := Hold(request.account, faults);
      held := account;
      if account.None? { return Err(error), held, false; }
      var planned := Planned(account.value, request.op, faults);
      var outcome;
      if planned.Answer? {
        reply, outcome := planned.reply, Keep(account.value);
      } else {
        reply, outcome, applied := WriteThrough(request.id, request.account, account.value, planned.mutation, loaded,
          faults);
      }
      if outcome.Keep? {
        CopiesWith(resident, store.history, request.account, outcome.account);
        resident := resident[request.account := outcome.account];
      }
    }

    /** The scheduler releases an account's state, at any time between calls. */
    method Release(id: nat)
      requires Valid()
      modifies this
      ensures Valid() && resident == old(resident) - {id}
    {
      CopiesWithout(resident, store.history, id);
      resident := resident - {id};
    }

    /** A cached value expires, at any time. */
    method Expire(id: nat)
      requires Valid()
      modifies cache
      ensures Valid() && cache.values == old(cache.values) - {id}
    {
      CopiesWithout(cache.values, store.history, id);
      cache.Invalidate(id, false);
    }
  }

  lemma CopiesWith(copies: map<nat, Account>, history: map<nat, seq<Entry>>, id: nat, a: Account)
    requires CopiesOk(copies, history) && Snapshot(history, id, a)
    ensures CopiesOk(copies[id := a], history)
  {
  }

  lemma CopiesWithout(copies: map<nat, Account>, history: map<nat, seq<Entry>>, id: nat)
    requires CopiesOk(copies, history)
    ensures CopiesOk(copies - {id}, history)
  {
  }

  lemma CommittedIsSnapshot(accounts: map<nat, Account>, requests: map<nat, Applied>, history: map<nat, seq<Entry>>,
                            id: nat, r: nat, committed: Account, duplicate: bool)
    requires StoreOk(accounts, requests, history)
    requires if duplicate then r in requests && requests[r].account == id && committed == requests[r].result
             else committed == AccountOf(accounts, id)
    ensures Snapshot(history, id, committed)
  {
  }

  /** A copy at the durable version is the durable account. */
  lemma CurrentIsDurable(accounts: map<nat, Account>, requests: map<nat, Applied>, history: map<nat, seq<Entry>>,
                         id: nat, a: Account)
    requires StoreOk(accounts, requests, history) && Snapshot(history, id, a)
    requires a.version == AccountOf(accounts, id).version
    ensures a == AccountOf(accounts, id)
  {
  }

  lemma DurableIsSnapshot(accounts: map<nat, Account>, requests: map<nat, Applied>, history: map<nat, seq<Entry>>,
                          id: nat)
    requires StoreOk(accounts, requests, history)
    ensures Snapshot(history, id, AccountOf(accounts, id))
  {
  }

  // ---- What every run keeps --------------------------------------------------------------------------------

  /** No request id is applied twice, on one account or on two. */
  lemma AppliedAtMostOnce(accounts: map<nat, Account>, requests: map<nat, Applied>, history: map<nat, seq<Entry>>,
                          id: nat, i: nat, other: nat, j: nat)
    requires StoreOk(accounts, requests, history)
    requires i < |HistoryOf(history, id)| && j < |HistoryOf(history, other)|
    requires HistoryOf(history, id)[i].request == HistoryOf(history, other)[j].request
    ensures id == other && i == j
  {
    assert EntryOk(requests, HistoryOf(history, id), id, i);
    assert EntryOk(requests, HistoryOf(history, other), other, j);
  }

  ghost function AppliedTo(requests: map<nat, Applied>, id: nat): set<nat> {
    set r | r in requests && requests[r].account == id
  }

  ghost function RequestsIn(h: seq<Entry>): (s: set<nat>)
    ensures forall r :: r in s <==> exists i :: 0 <= i < |h| && h[i].request == r
  {
    if h == [] then {} else RequestsIn(h[..|h| - 1]) + {h[|h| - 1].request}
  }

  lemma {:induction false} RequestsInSize(h: seq<Entry>)
    requires forall i, j :: 0 <= i < j < |h| ==> h[i].request != h[j].request
    ensures |RequestsIn(h)| == |h|
  {
    if h != [] { RequestsInSize(h[..|h| - 1]); }
  }

  /** An account's version is the number of request ids applied to it, and its balance
      the fold of their mutations. */
  lemma VersionCountsRequests(accounts: map<nat, Account>, requests: map<nat, Applied>, history: map<nat, seq<Entry>>,
                              id: nat)
    requires StoreOk(accounts, requests, history)
    ensures AccountOf(accounts, id).version == |AppliedTo(requests, id)|
    ensures AccountOf(accounts, id) == At(HistoryOf(history, id), |AppliedTo(requests, id)|)
  {
    var h := HistoryOf(history, id);
    forall i, j | 0 <= i < j < |h| ensures h[i].request != h[j].request {
      if h[i].request == h[j].request { AppliedAtMostOnce(accounts, requests, history, id, i, id, j); }
    }
    RequestsInSize(h);
    forall r | r in AppliedTo(requests, id) ensures r in RequestsIn(h) {
      assert RecordOk(r, requests[r], history);
    }
    forall r | r in RequestsIn(h) ensures r in AppliedTo(requests, id) {
      var i :| 0 <= i < |h| && h[i].request == r;
      assert EntryOk(requests, h, id, i);
    }
    assert AppliedTo(requests, id) == RequestsIn(h);
  }

  // ---- Replays over whole runs --------------------------------------------------------------------------------

  /** What happens to the service: a request with the faults of its call sites, or a
      copy of an account let go at either level. */
  datatype Action = Call(request: Request, faults: set<Site>) | Evict(account: nat) | Expire(account: nat)

  /** What was durably decided for a call: the mutation applied and the balance it made. */
  datatype Effect = Effect(mutation: Mutation, balance: int)

  /** The mutation a debit or credit asks for, whatever the account holds. */
  predicate Asks(op: Op, mutation: Mutation) {
    match op
    case Debit(amount) => amount >= 0 && mutation.Delta? && mutation.amount == 0 - amount
    case Credit(amount) => amount >= 0 && mutation.Delta? && mutation.amount == amount
    case Balance => false
    case Revalue(_) => false
  }

  /** An applied call is recorded under its request id. */
  ghost predicate Recorded(action: Action, effect: Option<Effect>, requests: map<nat, Applied>) {
    action.Call? && effect.Some? ==>
      && action.request.id in requests
      && requests[action.request.id].account == action.request.account
      && requests[action.request.id].mutation == effect.value.mutation
      && requests[action.request.id].result.balance == effect.value.balance
      && (action.request.op.Debit? || action.request.op.Credit? ==> Asks(action.request.op, effect.value.mutation))
  }

  /** What a reply says about whether its call was applied. */
  ghost predicate Answered(action: Action, reply: Option<Reply>, effect: Option<Effect>) {
    && (reply.Some? <==> action.Call?)
    && (effect.Some? ==> reply == Some(Err(InDoubt)) || reply == Some(Ok(effect.value.balance)))
    && (action.Call? && !action.request.op.Balance? && reply.value.Ok? ==> effect.Some?)
    && (reply == Some(Err(InDoubt)) ==> effect.Some?)
  }

  /** A fault-free replay of an applied debit or credit answers the balance it made. */
  ghost predicate Replayed(first: Action, effect: Option<Effect>, again: Action, reply: Option<Reply>,
                           more: Option<Effect>) {
    first.Call? && effect.Some? && (first.request.op.Debit? || first.request.op.Credit?) &&
      again == Call(first.request, {}) ==>
      reply == Some(Duplicate(effect.value.balance)) && more.None?
  }

  /** A fault-free call of a debit or credit already recorded. */
  predicate Repeats(action: Action, requests: map<nat, Applied>) {
    && action.Call? && action.faults == {} && action.request.id in requests
    && requests[action.request.id].account == action.request.account
    && Asks(action.request.op, requests[action.request.id].mutation)
  }

  /** What a call does to one account: an applied debit or credit moves the balance of its
      own account by its amount, an applied revaluation sets it, and all else stays. */
  ghost predicate Moves(revalue: (Account, nat) -> I64, action: Action, effect: Option<Effect>, id: nat,
                        before: Account, after: Account) {
    if action.Call? && effect.Some? && action.request.account == id then
      && after.version == before.version + 1 && effect.value.balance == after.balance
      && match action.request.op
         case Debit(amount) => amount >= 0 && after.balance == before.balance - amount
         case Credit(amount) => amount >= 0 && after.balance == before.balance + amount
         case Revalue(n) => after.balance == revalue(before, n)
         case Balance => false
    else after == before
  }

  ghost predicate Grows(requests: map<nat, Applied>, requests': map<nat, Applied>) {
    forall r :: r in requests ==> r in requests' && requests'[r] == requests[r]
  }

  lemma NothingMoves(revalue: (Account, nat) -> I64, action: Action, effect: Option<Effect>,
                     accounts: map<nat, Account>)
    requires effect.None?
    ensures forall id :: Moves(revalue, action, effect, id, AccountOf(accounts, id), AccountOf(accounts, id))
  {
  }

  lemma AppliedMoves(revalue: (Account, nat) -> I64, action: Action, effect: Option<Effect>,
                     accounts: map<nat, Account>, after: Account)
    requires action.Call? && effect.Some? && effect.value.balance == after.balance
    requires var before := AccountOf(accounts, action.request.account);
      && after.version == before.version + 1
      && match action.request.op
         case Debit(amount) => amount >= 0 && after.balance == before.balance - amount
         case Credit(amount) => amount >= 0 && after.balance == before.balance + amount
         case Revalue(n) => after.balance == revalue(before, n)
         case Balance => false
    ensures forall id :: Moves(revalue, action, effect, id, AccountOf(accounts, id),
                               AccountOf(accounts[action.request.account := after], id))
  {
  }

  method Perform(p: AccountProcessor, action: Action) returns (reply: Option<Reply>, ghost effect: Option<Effect>)
    requires p.Valid()
    modifies p, p.store, p.cache
    ensures p.Valid() && Grows(old(p.store.requests), p.store.requests)
    ensures Recorded(action, effect, p.store.requests) && Answered(action, reply, effect)
    ensures forall id ::
      Moves(p.revalue, action, effect, id, old(AccountOf(p.store.accounts, id)), AccountOf(p.store.accounts, id))
    ensures Repeats(action, old(p.store.requests)) ==>
      reply == Some(Duplicate(old(p.store.requests)[action.request.id].result.balance)) && effect.None?
  {
    hide StoreOk, CopiesOk, AccountOf, Extended, HistoryOf, Snapshot, Moves;
    reply, effect := None, None;
    ghost var accounts := p.store.accounts;
    match action {
      case Call(request, faults) =>
        var answer, held, applied := p.Process(request, faults);
        reply := Some(answer);
        if applied {
          var after := AccountOf(p.store.accounts, request.account);
          effect := Some(Effect(p.store.requests[request.id].mutation, after.balance));
          AppliedMoves(p.revalue, action, effect, accounts, after);
        } else {
          NothingMoves(p.revalue, action, effect, accounts);
        }
      case Evict(account) =>
        p.Release(account);
        NothingMoves(p.revalue, action, effect, accounts);
      case Expire(account) =>
        p.Expire(account);
        NothingMoves(p.revalue, action, effect, accounts);
    }
  }

  lemma RecordedStays(action: Action, effect: Option<Effect>, requests: map<nat, Applied>, requests': map<nat, Applied>)
    requires Recorded(action, effect, requests) && Grows(requests, requests')
    ensures Recorded(action, effect, requests')
  {
  }

  lemma ReplayedBy(first: Action, effect: Option<Effect>, again: Action, reply: Option<Reply>, more: Option<Effect>,
                   requests: map<nat, Applied>)
    requires Recorded(first, effect, requests)
    requires Repeats(again, requests) ==>
      reply == Some(Duplicate(requests[again.request.id].result.balance)) && more.None?
    ensures Replayed(first, effect, again, reply, more)
  {
  }

  // ---- Balances over whole runs -------------------------------------------------------------------------------

  /** An account after the applied calls of a run, each with what it asked for. */
  ghost function Tally(revalue: (Account, nat) -> I64, start: Account, id: nat, actions: seq<Action>,
                       effects: seq<Option<Effect>>): Account
    requires |actions| == |effects|
  {
    if actions == [] then start else
      var n := |actions| - 1;
      var a := Tally(revalue, start, id, actions[..n], effects[..n]);
      if !(actions[n].Call? && effects[n].Some? && actions[n].request.account == id) then a else
      match actions[n].request.op
      case Debit(amount) => Account(a.balance - amount, a.version + 1)
      case Credit(amount) => Account(a.balance + amount, a.version + 1)
      case Revalue(scenarios) => Account(revalue(a, scenarios), a.version + 1)
      case Balance => a
  }

  /** What the applied credits of a run added to an account. */
  ghost function Credits(id: nat, actions: seq<Action>, effects: seq<Option<Effect>>): int
    requires |actions| == |effects|
  {
    if actions == [] then 0 else
      var n := |actions| - 1;
      Credits(id, actions[..n], effects[..n]) +
      if actions[n].Call? && effects[n].Some? && actions[n].request.account == id && actions[n].request.op.Credit?
      then actions[n].request.op.amount else 0
  }

  /** What the applied debits of a run took from an account. */
  ghost function Debits(id: nat, actions: seq<Action>, effects: seq<Option<Effect>>): int
    requires |actions| == |effects|
  {
    if actions == [] then 0 else
      var n := |actions| - 1;
      Debits(id, actions[..n], effects[..n]) +
      if actions[n].Call? && effects[n].Some? && actions[n].request.account == id && actions[n].request.op.Debit?
      then actions[n].request.op.amount else 0
  }

  /** No revaluation of the account was applied. */
  ghost predicate NeverSet(id: nat, actions: seq<Action>, effects: seq<Option<Effect>>)
    requires |actions| == |effects|
  {
    forall i :: 0 <= i < |actions| && actions[i].Call? && effects[i].Some? && actions[i].request.account == id ==>
      !actions[i].request.op.Revalue?
  }

  lemma TallyNone(revalue: (Account, nat) -> I64, start: Account, id: nat)
    ensures Tally(revalue, start, id, [], []) == start
  {
  }

  lemma TallyMore(revalue: (Account, nat) -> I64, start: Account, id: nat, actions: seq<Action>,
                  effects: seq<Option<Effect>>, action: Action, effect: Option<Effect>, after: Account)
    requires |actions| == |effects|
    requires Moves(revalue, action, effect, id, Tally(revalue, start, id, actions, effects), after)
    ensures Tally(revalue, start, id, actions + [action], effects + [effect]) == after
  {
    assert (actions + [action])[..|actions|] == actions && (effects + [effect])[..|actions|] == effects;
  }

  /** With no revaluation, the tally is the sum of the credits less that of the debits. */
  lemma {:induction false} TallyIsSum(revalue: (Account, nat) -> I64, start: Account, id: nat, actions: seq<Action>,
                                      effects: seq<Option<Effect>>)
    requires |actions| == |effects| && NeverSet(id, actions, effects)
    ensures Tally(revalue, start, id, actions, effects).balance ==
            start.balance + Credits(id, actions, effects) - Debits(id, actions, effects)
  {
    if actions != [] {
      var n := |actions| - 1;
      TallyIsSum(revalue, start, id, actions[..n], effects[..n]);
    }
  }

  /** What the account of call `i` had come to by then, told of the run alone. */
  ghost predicate MadeBalance(revalue: (Account, nat) -> I64, start: map<nat, Account>, actions: seq<Action>,
                              effects: seq<Option<Effect>>, i: nat)
    requires i < |actions| == |effects|
  {
    actions[i].Call? && effects[i].Some? ==>
      var id := actions[i].request.account;
      effects[i].value.balance ==
        Tally(revalue, AccountOf(start, id), id, actions[..i + 1], effects[..i + 1]).balance
  }

  lemma MadeStays(revalue: (Account, nat) -> I64, start: map<nat, Account>, actions: seq<Action>,
                  effects: seq<Option<Effect>>, action: Action, effect: Option<Effect>, i: nat)
    requires i < |actions| == |effects| && MadeBalance(revalue, start, actions, effects, i)
    ensures MadeBalance(revalue, start, actions + [action], effects + [effect], i)
  {
    assert (actions + [action])[..i + 1] == actions[..i + 1] && (effects + [effect])[..i + 1] == effects[..i + 1];
  }

  lemma MadeLast(revalue: (Account, nat) -> I64, start: map<nat, Account>, actions: seq<Action>,
                 effects: seq<Option<Effect>>, action: Action, effect: Option<Effect>, accounts: map<nat, Account>,
                 accounts': map<nat, Account>)
    requires |actions| == |effects|
    requires forall id :: AccountOf(accounts, id) == Tally(revalue, AccountOf(start, id), id, actions, effects)
    requires forall id :: Moves(revalue, action, effect, id, AccountOf(accounts, id), AccountOf(accounts', id))
    ensures forall id: nat ::
      AccountOf(accounts', id) == Tally(revalue, AccountOf(start, id), id, actions + [action], effects + [effect])
    ensures MadeBalance(revalue, start, actions + [action], effects + [effect], |actions|)
  {
    forall id: nat
      ensures AccountOf(accounts', id) ==
        Tally(revalue, AccountOf(start, id), id, actions + [action], effects + [effect])
    {
      assert Moves(revalue, action, effect, id, AccountOf(accounts, id), AccountOf(accounts', id));
      TallyMore(revalue, AccountOf(start, id), id, actions, effects, action, effect, AccountOf(accounts', id));
    }
    if action.Call? && effect.Some? {
      var id := action.request.account;
      assert Moves(revalue, action, effect, id, AccountOf(accounts, id), AccountOf(accounts', id));
    }
    assert (actions + [action])[..|actions| + 1] == actions + [action];
    assert (effects + [effect])[..|actions| + 1] == effects + [effect];
  }

  /** Any run of calls, evictions and expiries, under any faults. A debit or credit
      applied by one call is answered `Duplicate`, with the balance it first made, by
      every later call of the same request that meets no fault; and when the call that
      applied it was answered, that balance was the answer. Every account ends at what it
      started from with the applied calls tallied, so without revaluations at that plus
      its applied credits less its applied debits, and every balance made on the way is
      the tally so far. */
  method Drive(p: AccountProcessor, actions: seq<Action>)
    returns (replies: seq<Option<Reply>>, ghost effects: seq<Option<Effect>>)
    requires p.Valid()
    modifies p, p.store, p.cache
    ensures p.Valid() && |replies| == |effects| == |actions|
    ensures forall i :: 0 <= i < |actions| ==> Answered(actions[i], replies[i], effects[i])
    ensures forall i, j :: 0 <= i < j < |actions| ==>
      Replayed(actions[i], effects[i], actions[j], replies[j], effects[j])
    ensures forall id: nat ::
      AccountOf(p.store.accounts, id) == Tally(p.revalue, AccountOf(old(p.store.accounts), id), id, actions, effects)
    ensures forall i :: 0 <= i < |actions| ==> MadeBalance(p.revalue, old(p.store.accounts), actions, effects, i)
    ensures forall id: nat :: NeverSet(id, actions, effects) ==>
      AccountOf(p.store.accounts, id).balance ==
        AccountOf(old(p.store.accounts), id).balance + Credits(id, actions, effects) - Debits(id, actions, effects)
  {
    hide Recorded, Answered, Replayed, Grows, Moves, Tally, AccountOf, MadeBalance, Credits, Debits, NeverSet;
    replies, effects := [], [];
    ghost var start := p.store.accounts;
    forall id: nat ensures AccountOf(start, id) == Tally(p.revalue, AccountOf(start, id), id, [], []) {
      TallyNone(p.revalue, AccountOf(start, id), id);
    }
    var n := 0;
    while n < |actions|
      invariant 0 <= n <= |actions| && p.Valid() && |replies| == |effects| == n
      invariant forall i :: 0 <= i < n ==> Answered(actions[i], replies[i], effects[i])
      invariant forall id: nat ::
        AccountOf(p.store.accounts, id) == Tally(p.revalue, AccountOf(start, id), id, actions[..n], effects)
      invariant forall i :: 0 <= i < n ==> MadeBalance(p.revalue, start, actions[..n], effects, i)
      invariant forall i :: 0 <= i < n ==> Recorded(actions[i], effects[i], p.store.requests)
      invariant forall i, j :: 0 <= i < j < n ==> Replayed(actions[i], effects[i], actions[j], replies[j], effects[j])
    {
      ghost var before, accounts := p.store.requests, p.store.accounts;
      var reply, effect := Perform(p, actions[n]);
      forall i | 0 <= i < n
        ensures Recorded(actions[i], effects[i], p.store.requests)
        ensures Replayed(actions[i], effects[i], actions[n], reply, effect)
      {
        RecordedStays(actions[i], effects[i], before, p.store.requests);
        ReplayedBy(actions[i], effects[i], actions[n], reply, effect, before);
      }
      MadeLast(p.revalue, start, actions[..n], effects, actions[n], effect, accounts, p.store.accounts);
      forall i | 0 <= i < n
        ensures MadeBalance(p.revalue, start, actions[..n] + [actions[n]], effects + [effect], i)
      {
        MadeStays(p.revalue, start, actions[..n], effects, actions[n], effect, i);
      }
      assert actions[..n + 1] == actions[..n] + [actions[n]];
      replies, effects := replies + [reply], effects + [effect];
      n := n + 1;
    }
    assert actions[..n] == actions;
    forall id: nat | NeverSet(id, actions, effects)
      ensures AccountOf(p.store.accounts, id).balance ==
        AccountOf(start, id).balance + Credits(id, actions, effects) - Debits(id, actions, effects)
    {
      TallyIsSum(p.revalue, AccountOf(start, id), id, actions, effects);
    }
  }

  lemma FirstApplication(accounts: map<nat, Account>, requests: map<nat, Applied>, history: map<nat, seq<Entry>>,
                         id: nat, e: Entry)
    requires StoreOk(accounts, requests, history) && history == Extended(map[], id, e)
    ensures AccountOf(accounts, id) == Account(Mutated(0, e.mutation), 1)
  {
    assert HistoryOf(history, id) == [e];
    assert At([e], 0) == EMPTY;
  }

  /** A revaluation worked out from the balance can conflict with itself: the first
      call sets the balance it computes, and its replay computes another. */
  method RevaluationCanConflict() returns (replies: seq<Reply>)
    ensures replies == [Ok(1), Err(RequestConflict)]
  {
    var p := new AccountProcessor((a: Account, n: nat) => if a.balance == 0 then 1 else 2);
    var request := Request(7, 0, Revalue(1));
    var first, held, applied := p.Process(request, {});
    assert held == Some(EMPTY);
    assert p.Planned(EMPTY, Revalue(1), {}) == Write(SetBalance(1));
    FirstApplication(p.store.accounts, p.store.requests, p.store.history, 0, Entry(7, SetBalance(1)));
    assert p.resident[0] == Account(1, 1);
    var second, again, reapplied := p.Process(request, {});
    assert p.Planned(again.value, Revalue(1), {}) == Write(SetBalance(2));
    replies := [first, second];
  }
}
