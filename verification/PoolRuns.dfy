/** Runs of the transaction pool: its handlers as atomic steps, in any order, with whatever
    arguments, while the chain moves forwards and backwards. */
module PoolRuns {
  import opened Words
  import opened TxAccount
  import opened TxPool
  import Sums

  datatype Event =
    | AddEvent(t: Tx, valid: bool)
    | EnqueueEvent(t: Tx)
    | PromoteEvent(x: Address)
    | PopEvent(t: Tx)
    | DropEvent(t: Tx)
    | DemoteEvent(t: Tx)
    | PruneEvent(x: Address)
    | SkipEvent(x: Address, active: bool)
    | MinedEvent(mined: seq<Tx>, returned: seq<Returned>, order: seq<Address>)
    /** The nonce of `x` in the state changes: up with a block, down with a reorganisation. */
    | StateEvent(x: Address, nonce: uint64)

  /** What keeps a step from failing: the account is there, and a run of nonces that is about
      to be promoted does not reach the last one. */
  ghost predicate Callable(p: Pool, e: Event) {
    match e
    case AddEvent(_, _) => true
    case EnqueueEvent(t) => t in p.inFlight
    case PromoteEvent(x) => x in p.accounts && Stops(p.accounts[x].enqueued, p.accounts[x].nextNonce)
    case PopEvent(t) => t.from in p.accounts
    case DropEvent(t) => t.from in p.accounts
    case DemoteEvent(t) => t.from in p.accounts
    case PruneEvent(x) => x in p.accounts
    case SkipEvent(x, _) => x in p.accounts
    case MinedEvent(_, _, _) => true
    case StateEvent(_, _) => true
  }

  ghost function Step(p: Pool, e: Event): Pool
    requires AccountsInv(p) && Callable(p, e)
  {
    match e
    case AddEvent(t, valid) => AddTx(p, t, valid).0
    case EnqueueEvent(t) => EnqueueKeepsInv(p, t); HandleEnqueue(p, t)
    case PromoteEvent(x) => HandlePromote(p, x)
    case PopEvent(t) => TxPool.Pop(p, t)
    case DropEvent(t) => Drop(p, t)
    case DemoteEvent(t) => Demote(p, t)
    case PruneEvent(x) => PruneHole(p, x)
    case SkipEvent(x, active) => SkipsKeepInv(p, x, active); UpdateSkips(p, x, active)
    case MinedEvent(mined, returned, order) => ProcessEvent(p, mined, returned, order)
    case StateEvent(x, n) => p.(stateNonces := p.stateNonces[x := n])
  }

  /** The transaction that is popped has a head to go with it that takes as many slots. */
  predicate Booking(p: Pool, e: Event) {
    e.PopEvent? && e.t.from in p.accounts ==>
      var q := p.accounts[e.t.from].promoted;
      q != [] && Wrap(Slots(e.t)) == Wrap(Slots(q[0]))
  }

  /** Hashes do not collide, mined transactions are ones the state has passed, and no account
      is reverted below a doubtful request. */
  ghost predicate Traceable(p: Pool, e: Event) {
    match e
    case AddEvent(t, _) => NoCollision(p, t)
    case DropEvent(t) => DoubtsBelow(p, t.from, t.nonce)
    case DemoteEvent(t) => t.from in p.accounts ==> SafeDemotion(p, t)
    case MinedEvent(mined, returned, order) => EventOk(p, mined, returned, order)
    case _ => true
  }

  /** Each step keeps the accounts well formed, whatever its arguments. */
  lemma StepKeepsAccounts(p: Pool, e: Event)
    requires AccountsInv(p) && Callable(p, e)
    ensures AccountsInv(Step(p, e))
  {
    hide AccountsInv, AddTx, HandleEnqueue, HandlePromote, TxPool.Pop, Drop, Demote, PruneHole, UpdateSkips,
         ProcessEvent, IndexInv, Counted, Stops;
    match e
    case AddEvent(t, valid) => AddTxKeepsInv(p, t, valid);
    case EnqueueEvent(t) => EnqueueKeepsInv(p, t);
    case PromoteEvent(x) => PromoteKeepsInv(p, x);
    case PopEvent(t) => PopKeepsInv(p, t);
    case DropEvent(t) => DropKeepsInv(p, t);
    case DemoteEvent(t) => DemoteKeepsInv(p, t);
    case PruneEvent(x) => PruneHoleKeepsInv(p, x);
    case SkipEvent(x, active) => SkipsKeepInv(p, x, active);
    case MinedEvent(mined, returned, order) => ProcessEventKeepsInv(p, mined, returned, order);
    case StateEvent(x, n) => StateKeeps(p, x, n);
  }

  lemma StateKeeps(p: Pool, x: Address, n: uint64)
    ensures var q := p.(stateNonces := p.stateNonces[x := n]);
            && (AccountsInv(p) ==> AccountsInv(q)) && (IndexInv(p) ==> IndexInv(q)) && (Counted(p) ==> Counted(q))
  {
    var q := p.(stateNonces := p.stateNonces[x := n]);
    if AccountsInv(p) {
      hide HeldOk;
      AccountsSame(p, q);
    }
    if IndexInv(p) {
      hide ListedOk, InFlightOk, Separate;
      IndexSame(p, q);
    }
    CountedSame(p, q);
  }

  /** Each step keeps gauge and counter right; a pop if and only if it books its head. */
  lemma StepKeepsCounted(p: Pool, e: Event)
    requires AccountsInv(p) && Callable(p, e) && Counted(p)
    ensures Booking(p, e) ==> Counted(Step(p, e))
    ensures e.PopEvent? ==> (Counted(Step(p, e)) <==> Booking(p, e))
  {
    hide AccountsInv, AddTx, HandleEnqueue, HandlePromote, TxPool.Pop, Drop, Demote, PruneHole, UpdateSkips,
         ProcessEvent, IndexInv, Counted, Stops, Slots, Wrap;
    match e
    case AddEvent(t, valid) => AddTxKeepsInv(p, t, valid);
    case EnqueueEvent(t) => EnqueueKeepsInv(p, t);
    case PromoteEvent(x) => PromoteKeepsInv(p, x);
    case PopEvent(t) => PopCountsIff(p, t);
    case DropEvent(t) => DropKeepsInv(p, t);
    case DemoteEvent(t) => DemoteKeepsInv(p, t);
    case PruneEvent(x) => PruneHoleKeepsInv(p, x);
    case SkipEvent(x, active) => SkipsKeepInv(p, x, active);
    case MinedEvent(mined, returned, order) => ProcessEventKeepsInv(p, mined, returned, order);
    case StateEvent(x, n) => StateKeeps(p, x, n);
  }

  /** Each step keeps the index right; a drop if and only if no doubtful request is let in. */
  lemma StepKeepsIndex(p: Pool, e: Event)
    requires AccountsInv(p) && Callable(p, e) && IndexInv(p)
    ensures Traceable(p, e) ==> IndexInv(Step(p, e))
    ensures e.DropEvent? ==> (IndexInv(Step(p, e)) <==> Traceable(p, e))
  {
    hide AccountsInv, AddTx, HandleEnqueue, HandlePromote, TxPool.Pop, Drop, Demote, PruneHole, UpdateSkips,
         ProcessEvent, IndexInv, Counted, Stops, DoubtsBelow, NoCollision, EventOk, SafeDemotion;
    match e
    case AddEvent(t, valid) => AddTxKeepsInv(p, t, valid);
    case EnqueueEvent(t) => EnqueueKeepsInv(p, t);
    case PromoteEvent(x) => PromoteKeepsInv(p, x);
    case PopEvent(t) => PopKeepsInv(p, t);
    case DropEvent(t) => DropKeepsIndexIff(p, t);
    case DemoteEvent(t) => DemoteKeepsInv(p, t);
    case PruneEvent(x) => PruneHoleKeepsInv(p, x);
    case SkipEvent(x, active) => SkipsKeepInv(p, x, active);
    case MinedEvent(mined, returned, order) => ProcessEventKeepsInv(p, mined, returned, order);
    case StateEvent(x, n) => StateKeeps(p, x, n);
  }

  // ---------- Runs ----------

  ghost predicate AllCallable(p: Pool, events: seq<Event>)
    requires AccountsInv(p)
    decreases |events|
  {
    events == [] ||
    (Callable(p, events[0]) && (StepKeepsAccounts(p, events[0]); AllCallable(Step(p, events[0]), events[1..])))
  }

  ghost function RunPool(p: Pool, events: seq<Event>): (r: Pool)
    requires AccountsInv(p) && AllCallable(p, events)
    ensures AccountsInv(r)
    decreases |events|
  {
    hide AccountsInv, Step, Callable;
    if events == [] then p else
      StepKeepsAccounts(p, events[0]);
      RunPool(Step(p, events[0]), events[1..])
  }

  ghost predicate AllBooking(p: Pool, events: seq<Event>)
    requires AccountsInv(p) && AllCallable(p, events)
    decreases |events|
  {
    events == [] ||
    (Booking(p, events[0]) && (StepKeepsAccounts(p, events[0]); AllBooking(Step(p, events[0]), events[1..])))
  }

  ghost predicate AllTraceable(p: Pool, events: seq<Event>)
    requires AccountsInv(p) && AllCallable(p, events)
    decreases |events|
  {
    events == [] ||
    (Traceable(p, events[0]) && (StepKeepsAccounts(p, events[0]); AllTraceable(Step(p, events[0]), events[1..])))
  }

  lemma {:induction false} RunKeepsCounted(p: Pool, events: seq<Event>)
    requires AccountsInv(p) && AllCallable(p, events) && Counted(p) && AllBooking(p, events)
    ensures Counted(RunPool(p, events))
    decreases |events|
  {
    hide AccountsInv, Step, Callable, Counted, Booking;
    if events != [] {
      StepKeepsAccounts(p, events[0]);
      StepKeepsCounted(p, events[0]);
      RunKeepsCounted(Step(p, events[0]), events[1..]);
    }
  }

  lemma {:induction false} RunKeepsIndex(p: Pool, events: seq<Event>)
    requires AccountsInv(p) && AllCallable(p, events) && IndexInv(p) && AllTraceable(p, events)
    ensures IndexInv(RunPool(p, events))
    decreases |events|
  {
    hide AccountsInv, Step, Callable, IndexInv, Traceable;
    if events != [] {
      StepKeepsAccounts(p, events[0]);
      StepKeepsIndex(p, events[0]);
      RunKeepsIndex(Step(p, events[0]), events[1..]);
    }
  }

  function EmptyPool(maxSlots: uint64, maxEnqueued: nat, stateNonces: map<Address, uint64>): Pool {
    Pool(map[], map[], 0, maxSlots, 0, multiset{}, maxEnqueued, stateNonces)
  }

  lemma EmptyPoolInv(maxSlots: uint64, maxEnqueued: nat, stateNonces: map<Address, uint64>)
    ensures PoolInv(EmptyPool(maxSlots, maxEnqueued, stateNonces))
  {
    assert Weights(map[]) == map[] && Pendings(map[]) == map[];
  }

  // ---------- What that means ----------

  /** In every reachable pool, whatever the arguments of its steps: the promoted nonces of an
      account form a gap-free run, one transaction each, that ends just below the next nonce;
      enqueued nonces start at the next one; and the enqueued limit holds. */
  lemma ReachableAccounts(p: Pool, events: seq<Event>, x: Address)
    requires p == EmptyPool(p.maxSlots, p.maxEnqueued, p.stateNonces)
    requires (EmptyPoolInv(p.maxSlots, p.maxEnqueued, p.stateNonces); AllCallable(p, events))
    ensures (EmptyPoolInv(p.maxSlots, p.maxEnqueued, p.stateNonces); x in RunPool(p, events).accounts) ==>
              var q := RunPool(p, events);
              && GapFree(multiset(q.accounts[x].promoted), q.accounts[x].nextNonce)
              && AtLeast(q.accounts[x].enqueued, q.accounts[x].nextNonce)
              && |q.accounts[x].enqueued| <= q.accounts[x].maxEnqueued == q.maxEnqueued
  {
    hide RunPool, AllCallable, GapFree, QueueOk;
    EmptyPoolInv(p.maxSlots, p.maxEnqueued, p.stateNonces);
    var q := RunPool(p, events);
    if x in q.accounts {
      assert HeldOk(q, x);
    }
  }

  /** In every reachable pool whose pops booked their heads the gauge shows the slots of all
      queued transactions and the counter the number of promoted ones. */
  lemma ReachableCounts(p: Pool, events: seq<Event>)
    requires p == EmptyPool(p.maxSlots, p.maxEnqueued, p.stateNonces)
    requires (EmptyPoolInv(p.maxSlots, p.maxEnqueued, p.stateNonces); AllCallable(p, events) && AllBooking(p, events))
    ensures (EmptyPoolInv(p.maxSlots, p.maxEnqueued, p.stateNonces);
             Counted(RunPool(p, events)) && ExactHeight(RunPool(p, events)))
  {
    hide RunPool, AllCallable, AllBooking, AccountsInv, IndexInv, Counted, ExactHeight;
    EmptyPoolInv(p.maxSlots, p.maxEnqueued, p.stateNonces);
    RunKeepsCounted(p, events);
    HeightIsExact(RunPool(p, events));
  }

  /** In every reachable pool whose steps were traceable the index knows every queued
      transaction; none is queued twice, in one account or in two. */
  lemma ReachableIndex(p: Pool, events: seq<Event>)
    requires p == EmptyPool(p.maxSlots, p.maxEnqueued, p.stateNonces)
    requires (EmptyPoolInv(p.maxSlots, p.maxEnqueued, p.stateNonces); AllCallable(p, events) && AllTraceable(p, events))
    ensures (EmptyPoolInv(p.maxSlots, p.maxEnqueued, p.stateNonces); IndexedOnce(RunPool(p, events)))
  {
    hide RunPool, AllCallable, AllTraceable, AccountsInv, IndexInv, Counted, IndexedOnce;
    EmptyPoolInv(p.maxSlots, p.maxEnqueued, p.stateNonces);
    RunKeepsIndex(p, events);
    EachIndexedOnce(RunPool(p, events));
  }

  /** The gauge shows the sum itself as long as the sum fits 64 bits. */
  ghost predicate ExactHeight(p: Pool) {
    Sums.Sum(Weights(p.accounts)) < TWO_64 ==> p.height == Sums.Sum(Weights(p.accounts))
  }

  lemma HeightIsExact(p: Pool)
    requires Counted(p)
    ensures ExactHeight(p)
  {
    hide Sums.Sum;
    WeightsNonNegative(p.accounts);
  }

  lemma WeightsNonNegative(accounts: map<Address, Account>)
    ensures Sums.Sum(Weights(accounts)) >= 0
  {
    Sums.SumNonNegative(Weights(accounts));
  }

  ghost predicate IndexedOnce(p: Pool) {
    && (forall x, t :: x in p.accounts && t in All(p.accounts[x]) ==> Indexed(p, t) && All(p.accounts[x])[t] == 1)
    && (forall x, y, t, u ::
          x in p.accounts && y in p.accounts && t in All(p.accounts[x]) && u in All(p.accounts[y]) && t.hash == u.hash
          ==> x == y && t == u)
  }

  lemma EachIndexedOnce(p: Pool)
    requires AccountsInv(p) && IndexInv(p)
    ensures IndexedOnce(p)
  {
    hide AccountsInv, IndexInv, All;
    forall x, t | x in p.accounts && t in All(p.accounts[x]) ensures Indexed(p, t) && All(p.accounts[x])[t] == 1 {
      QueuedIsIndexed(p, x, t);
    }
    forall x, y, t, u | x in p.accounts && y in p.accounts && t in All(p.accounts[x]) && u in All(p.accounts[y])
                        && t.hash == u.hash
      ensures x == y && t == u
    {
      QueuedIsIndexed(p, x, t);
      QueuedIsIndexed(p, y, u);
    }
  }

  lemma QueuedIsIndexed(p: Pool, x: Address, t: Tx)
    requires AccountsInv(p) && IndexInv(p) && x in p.accounts && t in All(p.accounts[x])
    ensures t.from == x && Indexed(p, t) && All(p.accounts[x])[t] == 1
  {
    hide AccountOk, InFlightOk, Separate;
    assert HeldOk(p, x) && ListedOk(p, x);
  }

  // ---------- A drop for a stale transaction ----------

  /** The pool with one account, whose transactions are all gone, and a request for `u`. */
  function Lone(p: Pool, u: Tx, nextNonce: uint64): Pool {
    p.(accounts := map[u.from := NewAccount(nextNonce, p.maxEnqueued)], index := map[], inFlight := multiset{u},
       stateNonces := map[u.from := Wrap(u.nonce + 1)])
  }

  /** `u` is requested, mined and forgotten before its request is handled. */
  lemma MinedWhileRequested(p: Pool, u: Tx)
    requires p == EmptyPool(p.maxSlots, p.maxEnqueued, map[]) && Slots(u) <= p.maxSlots && u.nonce < MAX_UINT64
    ensures var q := AddTx(p, u, true).0;
            var r := q.(stateNonces := q.stateNonces[u.from := u.nonce + 1]);
            ProcessEvent(r, [u], [], [u.from]) == Lone(p, u, u.nonce + 1)
  {
    hide Lowered;
    var q := AddTx(p, u, true).0;
    var r := q.(stateNonces := q.stateNonces[u.from := u.nonce + 1]);
    assert Wrap(u.nonce + 1) == u.nonce + 1;
    assert q == p.(accounts := map[u.from := NewAccount(0, p.maxEnqueued)], index := map[u.hash := u],
                   inFlight := multiset{u});
    assert Hashes([u]) == {u.hash};
    var s := r.(index := Forget(r.index, [u]));
    assert s == r.(index := map[]);
    assert AddAll(s, []) == s;
    assert ResetAll(s, [u.from][..0]) == s;
    assert ResetAll(s, [u.from]) == ResetOne(s, u.from);
    CleanUpNone(map[], 0);
    assert TxAccount.Reset(s.accounts[u.from], u.nonce + 1) == (NewAccount(u.nonce + 1, p.maxEnqueued), [], []);
  }

  lemma DropLetsIn(p: Pool, u: Tx, t: Tx)
    requires p == EmptyPool(p.maxSlots, p.maxEnqueued, map[]) && p.maxEnqueued > 0
    requires t.from == u.from && t.nonce <= u.nonce < MAX_UINT64
    ensures var q := Drop(Lone(p, u, u.nonce + 1), t);
            q == Lone(p, u, t.nonce) && !IndexedOnce(HandleEnqueue(q, u))
  {
    hide Lowered;
    CleanUpNone(map[], 0);
    var q := Lone(p, u, t.nonce);
    var r := HandleEnqueue(q, u);
    assert PushTx([], u) == [u];
    assert r.accounts[u.from].enqueued == [u] && r.index == map[];
    assert u in All(r.accounts[u.from]) && !Indexed(r, u);
  }

  /** The pools a run goes through. */
  ghost predicate Visits(pools: seq<Pool>, events: seq<Event>) {
    && |pools| == |events| + 1
    && (forall i :: 0 <= i < |events| ==> Leads(pools[i], events[i], pools[i + 1]))
  }

  ghost predicate Leads(p: Pool, e: Event, q: Pool) {
    AccountsInv(p) && Callable(p, e) && q == Step(p, e)
  }

  lemma {:induction false} VisitsIsRun(pools: seq<Pool>, events: seq<Event>)
    requires Visits(pools, events) && AccountsInv(pools[0])
    ensures AllCallable(pools[0], events) && RunPool(pools[0], events) == pools[|events|]
    decreases |events|
  {
    hide AccountsInv, Callable, Step;
    if events != [] {
      assert Leads(pools[0], events[0], pools[1]);
      StepKeepsAccounts(pools[0], events[0]);
      forall i | 0 <= i < |events| - 1 ensures Leads(pools[1..][i], events[1..][i], pools[1..][i + 1]) {
        assert Leads(pools[i + 1], events[i + 1], pools[i + 2]);
      }
      VisitsIsRun(pools[1..], events[1..]);
    }
  }

  lemma LoneAccounts(p: Pool, u: Tx, n: uint64)
    ensures AccountsInv(Lone(p, u, n))
  {
    assert HeldOk(Lone(p, u, n), u.from);
  }

  /** A run from the empty pool: `u` is added, mined and forgotten; its sender is dropped for a
      stale `t` that does not come after it; then the request for `u` is handled. It is queued,
      and the index does not know it. */
  lemma StaleDropBreaksIndex(p: Pool, u: Tx, t: Tx) returns (pools: seq<Pool>, events: seq<Event>)
    requires p == EmptyPool(p.maxSlots, p.maxEnqueued, map[]) && Slots(u) <= p.maxSlots && p.maxEnqueued > 0
    requires t.from == u.from && t.nonce <= u.nonce < MAX_UINT64
    ensures Visits(pools, events) && pools[0] == p && !IndexedOnce(pools[|events|])
    ensures forall e :: e in events && e.DropEvent? ==> e.t == t
  {
    hide AccountsInv, IndexInv, Counted, AddTx, ProcessEvent, Drop, HandleEnqueue, IndexedOnce, Leads, Lone, EmptyPool;
    EmptyPoolInv(p.maxSlots, p.maxEnqueued, map[]);
    AddLeads(p, u);
    var p1 := AddTx(p, u, true).0;
    StateLeads(p1, u.from, u.nonce + 1);
    var p2 := p1.(stateNonces := p1.stateNonces[u.from := u.nonce + 1]);
    MinedLeads(p2, [u], [], [u.from]);
    MinedWhileRequested(p, u);
    var p3, p4 := Lone(p, u, u.nonce + 1), Lone(p, u, t.nonce);
    DropLetsIn(p, u, t);
    LoneLeads(p, u, t);
    events := [AddEvent(u, true), StateEvent(u.from, u.nonce + 1), MinedEvent([u], [], [u.from]), DropEvent(t),
               EnqueueEvent(u)];
    pools := [p, p1, p2, p3, p4, HandleEnqueue(p4, u)];
  }

  lemma AddLeads(p: Pool, u: Tx)
    requires AccountsInv(p)
    ensures Leads(p, AddEvent(u, true), AddTx(p, u, true).0) && AccountsInv(AddTx(p, u, true).0)
  {
    hide AccountsInv, AddTx;
    StepKeepsAccounts(p, AddEvent(u, true));
  }

  lemma StateLeads(p: Pool, x: Address, n: uint64)
    requires AccountsInv(p)
    ensures var q := p.(stateNonces := p.stateNonces[x := n]); Leads(p, StateEvent(x, n), q) && AccountsInv(q)
  {
    hide AccountsInv;
    StepKeepsAccounts(p, StateEvent(x, n));
  }

  lemma MinedLeads(p: Pool, mined: seq<Tx>, returned: seq<Returned>, order: seq<Address>)
    requires AccountsInv(p)
    ensures Leads(p, MinedEvent(mined, returned, order), ProcessEvent(p, mined, returned, order))
  {
  }

  lemma LoneLeads(p: Pool, u: Tx, t: Tx)
    requires t.from == u.from && u.nonce < MAX_UINT64
    ensures var p3, p4 := Lone(p, u, u.nonce + 1), Lone(p, u, t.nonce);
            && t.from in p3.accounts && u.from in p4.accounts
            && Leads(p3, DropEvent(t), Drop(p3, t)) && Leads(p4, EnqueueEvent(u), HandleEnqueue(p4, u))
  {
    hide AccountsInv, Drop, HandleEnqueue;
    LoneAccounts(p, u, u.nonce + 1);
    LoneAccounts(p, u, t.nonce);
  }
}
