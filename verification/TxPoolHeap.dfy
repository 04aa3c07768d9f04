/** The pool as it runs: account objects with their queues, changed in place
    (txpool/account.go, txpool/queue.go, txpool/txpool.go). */
module TxPoolHeap {
  import opened Wrappers
  import opened Words
  import opened TxAccount
  import opened TxPool
  import opened PoolRuns
  import opened BlockBuilder
  import Heap

  method PushQueue(q: Queue, t: Tx) returns (r: Queue)
    ensures r == PushTx(q, t)
  {
    r := Heap.Push(NonceLess, q, t);
  }

  method PopQueue(q: Queue) returns (r: Queue, t: Tx)
    requires q != []
    ensures r == PopTx(q) && t == q[0]
  {
    r, t := Heap.Pop(NonceLess, q);
  }

  /** Pops while the head's nonce is too low. */
  method PruneQueue(q: Queue, nonce: uint64) returns (kept: Queue, pruned: seq<Tx>)
    ensures (kept, pruned) == Prune(q, nonce)
  {
    kept, pruned := q, [];
    while kept != [] && kept[0].nonce < nonce
      invariant Prune(q, nonce).0 == Prune(kept, nonce).0
      invariant Prune(q, nonce).1 == pruned + Prune(kept, nonce).1
      decreases |kept|
    {
      var t;
      kept, t := PopQueue(kept);
      pruned := pruned + [t];
    }
    assert pruned + [] == pruned;
  }

  /** Moves transactions over while they are sequential in nonce. */
  method PromoteQueues(e0: Queue, p0: Queue, first: uint64)
    returns (e: Queue, p: Queue, next: uint64, moved: seq<Tx>, pruned: seq<Tx>)
    ensures Promotion(e, p, next, moved, pruned) == PromoteRun(e0, p0, first)
  {
    hide PopTx, PushTx, Prune;
    e, p, next, moved, pruned := e0, p0, first, [], [];
    while e != [] && e[0].nonce == next
      invariant var r, goal := PromoteRun(e, p, next), PromoteRun(e0, p0, first);
                && goal.enqueued == r.enqueued && goal.promoted == r.promoted && goal.nextNonce == r.nextNonce
                && goal.moved == moved + r.moved && goal.pruned == pruned + r.pruned
      decreases |e|
    {
      var t, gone;
      e, t := PopQueue(e);
      p := PushQueue(p, t);
      next := Wrap(t.nonce + 1);
      e, gone := PruneQueue(e, next);
      pruned := pruned + gone;
      moved := moved + [t];
    }
    assert moved + [] == moved && pruned + [] == pruned;
  }

  class PoolAccount {
    var enqueued: Queue
    var promoted: Queue
    var nextNonce: uint64
    var demotions: nat
    var skips: nat
    const maxEnqueued: nat

    ghost function Value(): Account
      reads this
    {
      Account(enqueued, promoted, nextNonce, demotions, skips, maxEnqueued)
    }

    constructor (nonce: uint64, maxEnqueued: nat)
      ensures Value() == NewAccount(nonce, maxEnqueued)
    {
      enqueued, promoted, nextNonce, demotions, skips := [], [], nonce, 0, 0;
      this.maxEnqueued := maxEnqueued;
    }

    method Enqueue(t: Tx) returns (err: Option<EnqueueError>)
      modifies this
      ensures (Value(), err) == TxAccount.Enqueue(old(Value()), t)
    {
      if |enqueued| == maxEnqueued {
        return Some(MaxEnqueuedLimitReached);
      }
      if t.nonce < nextNonce {
        return Some(EnqueueError.NonceTooLow);
      }
      enqueued := PushQueue(enqueued, t);
      err := None;
    }

    /** Moves eligible transactions from enqueued to promoted. */
    method Promote() returns (moved: seq<Tx>, pruned: seq<Tx>)
      modifies this
      ensures (Value(), moved, pruned) == TxAccount.Promote(old(Value()))
    {
      moved, pruned := [], [];
      var currentNonce := nextNonce;
      if enqueued == [] || enqueued[0].nonce > currentNonce {
        return;
      }
      var next;
      enqueued, promoted, next, moved, pruned := PromoteQueues(enqueued, promoted, enqueued[0].nonce);
      if next > currentNonce {
        nextNonce := next;
      }
    }

    /** Aligns the account with the new nonce. */
    method Reset(nonce: uint64) returns (prunedPromoted: seq<Tx>, prunedEnqueued: seq<Tx>)
      modifies this
      ensures (Value(), prunedPromoted, prunedEnqueued) == TxAccount.Reset(old(Value()), nonce)
    {
      promoted, prunedPromoted := PruneQueue(promoted, nonce);
      prunedEnqueued := [];
      if nonce <= nextNonce {
        return;
      }
      enqueued, prunedEnqueued := PruneQueue(enqueued, nonce);
      nextNonce := nonce;
    }

    /** Pops the topmost promoted transaction, if any, and resets the demotions. */
    method PopPromoted()
      modifies this
      ensures Value() == old(Value()).(promoted := if old(promoted) == [] then [] else PopTx(old(promoted)), demotions := 0)
    {
      if promoted != [] {
        var head;
        promoted, head := PopQueue(promoted);
      }
      demotions := 0;
    }

    /** Offers the topmost promoted transaction, if any, for execution. */
    method PushPrimary(executables: seq<Tx>) returns (r: seq<Tx>)
      ensures r == PushHead(executables, Value())
    {
      r := executables;
      if promoted != [] {
        r := Heap.Push(PriceLess, r, promoted[0]);
      }
    }

    method GetLowestTx() returns (t: Option<Tx>)
      ensures t == Lowest(Value())
    {
      if promoted != [] {
        t := Some(promoted[0]);
      } else if enqueued != [] {
        t := Some(enqueued[0]);
      } else {
        t := None;
      }
    }
  }

  /** Removes the transactions from the hash index. */
  method RemoveAll(index: map<Hash, Tx>, txs: seq<Tx>) returns (r: map<Hash, Tx>)
    ensures r == Forget(index, txs)
  {
    r := index;
    for i := 0 to |txs|
      invariant r == Forget(index, txs[..i])
    {
      assert txs[..i + 1] == txs[..i] + [txs[i]];
      assert Hashes(txs[..i + 1]) == Hashes(txs[..i]) + {txs[i].hash};
      r := r - {txs[i].hash};
    }
    assert txs[..|txs|] == txs;
  }

  class TransactionPool {
    const maxSlots: uint64
    const maxEnqueued: nat
    var accounts: map<Address, PoolAccount>
    var index: map<Hash, Tx>
    var height: uint64
    var pending: int
    var executables: seq<Tx>
    /** The store the pool reads nonces from. */
    var stateNonces: map<Address, uint64>
    ghost var inFlight: multiset<Tx>

    /** No two addresses share an account object. */
    ghost predicate Valid()
      reads this
    {
      forall x, y :: x in accounts && y in accounts && x != y ==> accounts[x] != accounts[y]
    }

    ghost function AccountValues(): map<Address, Account>
      reads this, accounts.Values
    {
      map x | x in accounts :: accounts[x].Value()
    }

    ghost function Value(): Pool
      reads this, accounts.Values
    {
      Pool(AccountValues(), index, height, maxSlots, pending, inFlight, maxEnqueued, stateNonces)
    }

    constructor (maxSlots: uint64, maxEnqueued: nat, stateNonces: map<Address, uint64>)
      ensures Valid() && Value() == EmptyPool(maxSlots, maxEnqueued, stateNonces) && executables == []
    {
      this.maxSlots, this.maxEnqueued, this.stateNonces := maxSlots, maxEnqueued, stateNonces;
      accounts, index, height, pending, executables := map[], map[], 0, 0, [];
      inFlight := multiset{};
    }

    /** Books transactions out of the index and the gauge. */
    method Cleanup(txs: seq<Tx>)
      modifies this`index, this`height
      ensures index == Forget(old(index), txs) && height == Lowered(old(height), txs)
    {
      index := RemoveAll(index, txs);
      DecreaseGauge(txs);
    }

    method DecreaseGauge(txs: seq<Tx>)
      modifies this`height
      ensures height == Lowered(old(height), txs)
    {
      var slots := SlotsRequired(txs);
      height := Decrease(height, slots);
    }

    // ---------- Handlers ----------

    method HandlePromoteRequest(x: Address)
      requires Valid() && x in accounts
      modifies this, accounts[x]
      ensures Valid() && accounts == old(accounts) && executables == old(executables)
      ensures Value() == HandlePromote(old(Value()), x)
    {
      hide TxAccount.Promote, Lowered, Forget;
      ghost var was := AccountValues();
      var moved, pruned := accounts[x].Promote();
      assert AccountValues() == was[x := accounts[x].Value()];
      Cleanup(pruned);
      pending := pending + |moved|;
    }

    method HandleEnqueueRequest(t: Tx)
      requires Valid() && t.from in accounts
      modifies this, accounts[t.from]
      ensures Valid() && accounts == old(accounts) && executables == old(executables)
      ensures Value() == HandleEnqueue(old(Value()), t)
    {
      hide Valid, AccountValues, Forget, Slots, Wrap, TxAccount.Enqueue;
      SameKeys();
      RefusedUnchanged(Value().accounts, t);
      var err := TryEnqueue(t);
      if err.Some? {
        Unindex(t);
      } else {
        Raise(t);
      }
      Handled(t);
    }

    lemma RefusedUnchanged(accounts: map<Address, Account>, t: Tx)
      requires t.from in accounts
      ensures var (a, err) := TxAccount.Enqueue(accounts[t.from], t);
              err.Some? ==> accounts[t.from := a] == accounts
    {
    }

    lemma SameKeys()
      ensures Value().accounts.Keys == accounts.Keys
    {
    }

    method TryEnqueue(t: Tx) returns (err: Option<EnqueueError>)
      requires Valid() && t.from in accounts
      modifies accounts[t.from]
      ensures Valid()
      ensures var was := old(Value());
              && Value() == was.(accounts := was.accounts[t.from := TxAccount.Enqueue(was.accounts[t.from], t).0])
              && err == TxAccount.Enqueue(was.accounts[t.from], t).1
    {
      hide TxAccount.Enqueue;
      ghost var was := AccountValues();
      err := accounts[t.from].Enqueue(t);
      assert AccountValues() == was[t.from := accounts[t.from].Value()];
    }

    method Unindex(t: Tx)
      requires Valid()
      modifies this`index
      ensures Valid() && Value() == old(Value()).(index := Forget(old(Value()).index, [t]))
    {
      hide Forget;
      ghost var was := AccountValues();
      index := RemoveAll(index, [t]);
      assert AccountValues() == was;
    }

    method Raise(t: Tx)
      requires Valid()
      modifies this`height
      ensures Valid() && Value() == old(Value()).(height := Wrap(old(Value()).height + Slots(t)))
    {
      ghost var was := AccountValues();
      height := Wrap(height + Slots(t));
      assert AccountValues() == was;
    }

    /** The request is no longer in flight. */
    ghost method Handled(t: Tx)
      requires Valid()
      modifies this`inFlight
      ensures Valid() && Value() == old(Value()).(inFlight := old(Value()).inFlight - multiset{t})
    {
      ghost var was := AccountValues();
      inFlight := inFlight - multiset{t};
      assert AccountValues() == was;
    }

    method AddTx(t: Tx, valid: bool) returns (err: Option<AddError>)
      requires Valid()
      modifies this
      ensures Valid() && executables == old(executables)
      ensures (Value(), err) == TxPool.AddTx(old(Value()), t, valid) && fresh(accounts.Values - old(accounts.Values))
    {
      hide Slots;
      if !valid {
        return Some(Invalid);
      }
      if StateNonceOf(t.from) > t.nonce {
        return Some(AddError.NonceTooLow);
      }
      if height > Wrap(HIGH_PRESSURE_MARK * maxSlots) / 100 {
        if t.from in accounts && t.nonce > accounts[t.from].nextNonce {
          return Some(RejectFutureTx);
        }
      }
      if Wrap(height + Slots(t)) > maxSlots {
        return Some(TxPoolOverflow);
      }
      if t.hash in index {
        return Some(AlreadyKnown);
      }
      if t.from !in accounts {
        CreateAccount(t.from);
      }
      Announce(t);
      err := None;
    }

    /** Indexes the transaction and signals the enqueue request. */
    method Announce(t: Tx)
      modifies this`index, this`inFlight
      ensures Value() == Announced(old(Value()), t)
    {
      ghost var was := AccountValues();
      index := index[t.hash := t];
      inFlight := inFlight + multiset{t};
      assert AccountValues() == was;
    }

    function StateNonceOf(x: Address): uint64
      reads this
    {
      if x in stateNonces then stateNonces[x] else 0
    }

    method CreateAccount(x: Address)
      requires Valid() && x !in accounts
      modifies this`accounts
      ensures Valid() && Value() == WithAccount(old(Value()), x) && fresh(accounts.Values - old(accounts.Values))
    {
      ghost var was := AccountValues();
      var a := new PoolAccount(StateNonceOf(x), maxEnqueued);
      accounts := accounts[x := a];
      assert AccountValues() == was[x := a.Value()];
    }

    // ---------- Called by the block builder ----------

    method Pop(t: Tx)
      requires Valid() && t.from in accounts
      modifies this, accounts[t.from]
      ensures Valid() && accounts == old(accounts)
      ensures Value() == TxPool.Pop(old(Value()), t)
      ensures executables == PushHead(old(executables), Value().accounts[t.from])
    {
      hide Lowered, PopTx, PushHead;
      ghost var was := AccountValues();
      accounts[t.from].PopPromoted();
      DecreaseGauge([t]);
      pending := pending - 1;
      executables := accounts[t.from].PushPrimary(executables);
      assert AccountValues() == was[t.from := accounts[t.from].Value()];
    }

    /** Clears the whole account of the transaction and reverts its next nonce. */
    method Drop(t: Tx)
      requires Valid() && t.from in accounts
      modifies this, accounts[t.from]
      ensures Valid() && accounts == old(accounts) && executables == old(executables)
      ensures Value() == TxPool.Drop(old(Value()), t)
    {
      hide Lowered, Forget;
      ghost var was := AccountValues();
      var a := accounts[t.from];
      a.nextNonce := t.nonce;
      var dropped := a.promoted;
      a.promoted := [];
      Cleanup(dropped);
      pending := pending - |dropped|;
      dropped := a.enqueued;
      a.enqueued := [];
      Cleanup(dropped);
      assert AccountValues() == was[t.from := a.Value()];
    }

    method Demote(t: Tx)
      requires Valid() && t.from in accounts
      modifies this, accounts[t.from]
      ensures Valid() && accounts == old(accounts) && executables == old(executables)
      ensures Value() == TxPool.Demote(old(Value()), t)
    {
      hide TxPool.Drop;
      var a := accounts[t.from];
      if a.demotions >= MAX_DEMOTIONS {
        Drop(t);
        ghost var was := AccountValues();
        a.demotions := 0;
        assert AccountValues() == was[t.from := a.Value()];
        return;
      }
      ghost var was := AccountValues();
      a.demotions := a.demotions + 1;
      assert AccountValues() == was[t.from := a.Value()];
    }

    // ---------- Housekeeping ----------

    /** One visit of the pruning handler. */
    method PruneAccount(x: Address)
      requires Valid() && x in accounts
      modifies this, accounts[x]
      ensures Valid() && accounts == old(accounts) && executables == old(executables)
      ensures Value() == PruneHole(old(Value()), x)
    {
      hide Lowered, Forget;
      ghost var was := AccountValues();
      var a := accounts[x];
      if a.enqueued == [] || a.enqueued[0].nonce == a.nextNonce {
        return;
      }
      var removed := a.enqueued;
      a.enqueued := [];
      Cleanup(removed);
      assert AccountValues() == was[x := a.Value()];
    }

    /** Clears every account whose enqueued transactions cannot be promoted. */
    method PruneAccountsWithNonceHoles(order: seq<Address>)
      requires Valid() && forall x :: x in order ==> x in accounts
      modifies this, accounts.Values
      ensures Valid() && accounts == old(accounts)
      ensures Value() == PruneHoles(old(Value()), order)
    {
      hide PruneHole;
      for i := 0 to |order|
        invariant Valid() && accounts == old(accounts)
        invariant Value() == PruneHoles(old(Value()), order[..i])
      {
        assert order[..i + 1][..i] == order[..i];
        PruneAccount(order[i]);
      }
      assert order[..|order|] == order;
    }

    /** One visit of the inactivity check. */
    method UpdateSkipsOf(x: Address, active: bool)
      requires Valid() && x in accounts
      requires forall t :: t in All(accounts[x].Value()) ==> t.from == x
      modifies this, accounts[x]
      ensures Valid() && accounts == old(accounts) && executables == old(executables)
      ensures Value() == UpdateSkips(old(Value()), x, active)
    {
      hide TxPool.Drop;
      if active {
        SetSkips(x, 0);
        return;
      }
      var firstTx := accounts[x].GetLowestTx();
      if firstTx.None? {
        return;
      }
      if accounts[x].skips + 1 < MAX_SKIPS {
        SetSkips(x, accounts[x].skips + 1);
        return;
      }
      assert firstTx.value in All(accounts[x].Value());
      Drop(firstTx.value);
      SetSkips(x, 0);
    }

    method SetSkips(x: Address, skips: nat)
      requires Valid() && x in accounts
      modifies accounts[x]
      ensures var was := old(Value());
              Value() == was.(accounts := was.accounts[x := was.accounts[x].(skips := skips)])
    {
      ghost var was := AccountValues();
      accounts[x].skips := skips;
      assert AccountValues() == was[x := accounts[x].Value()];
    }

    method UpdateAccountSkipsCounts(order: seq<Address>, active: set<Address>)
      requires Valid() && AccountsInv(Value())
      modifies this, accounts.Values
      ensures Valid() && accounts == old(accounts) && executables == old(executables)
      ensures Value() == UpdateAllSkips(old(Value()), order, active)
    {
      hide UpdateSkips, AccountsInv;
      for i := 0 to |order|
        invariant Valid() && accounts == old(accounts) && executables == old(executables)
        invariant Value() == UpdateAllSkips(old(Value()), order[..i], active)
      {
        assert order[..i + 1][..i] == order[..i];
        if order[i] in accounts {
          HeldByOwner(Value(), order[i]);
          UpdateSkipsOf(order[i], order[i] in active);
        }
      }
      assert order[..|order|] == order;
    }

    // ---------- A new block ----------

    method ResetAccount(x: Address) returns (prunedPromoted: seq<Tx>, prunedEnqueued: seq<Tx>)
      requires Valid() && x in accounts
      modifies accounts[x]
      ensures var was := old(Value());
              && Value() == Realigned(was, x)
              && (prunedPromoted, prunedEnqueued) ==
                 (TxAccount.Reset(was.accounts[x], StateNonce(was, x)).1, TxAccount.Reset(was.accounts[x], StateNonce(was, x)).2)
    {
      hide TxAccount.Reset;
      ghost var was := AccountValues();
      prunedPromoted, prunedEnqueued := accounts[x].Reset(StateNonceOf(x));
      accounts[x].demotions := 0;
      assert AccountValues() == was[x := accounts[x].Value()];
    }

    /** Aligns the accounts with the state, then cleans up once after all of them. */
    method ResetAccounts(order: seq<Address>)
      requires Valid()
      modifies this, accounts.Values
      ensures Valid() && accounts == old(accounts) && executables == old(executables)
      ensures Value() == ResetAll(old(Value()), order)
    {
      hide ResetOne, CleanedUp, Realigned, TxAccount.Reset;
      var allPrunedPromoted, allPrunedEnqueued := [], [];
      NothingToCleanUp(Value());
      for i := 0 to |order|
        invariant Valid() && accounts == old(accounts) && executables == old(executables)
        invariant CleanedUp(Value(), allPrunedPromoted, allPrunedEnqueued) == ResetAll(old(Value()), order[..i])
      {
        var x := order[i];
        assert order[..i + 1][..i] == order[..i];
        if x in accounts {
          CleanUpLater(Value(), x, allPrunedPromoted, allPrunedEnqueued);
          var pp, pe := ResetAccount(x);
          allPrunedPromoted, allPrunedEnqueued := allPrunedPromoted + pp, allPrunedEnqueued + pe;
        } else {
          NoAccountNoReset(Value(), x, allPrunedPromoted, allPrunedEnqueued);
        }
      }
      assert order[..|order|] == order;
      CleanUpAll(allPrunedPromoted, allPrunedEnqueued);
    }

    method CleanUpAll(prunedPromoted: seq<Tx>, prunedEnqueued: seq<Tx>)
      modifies this`index, this`height, this`pending
      ensures Value() == CleanedUp(old(Value()), prunedPromoted, prunedEnqueued)
    {
      hide Lowered, Forget;
      ghost var was := AccountValues();
      CleanUpNone(index, height);
      if prunedPromoted != [] {
        Cleanup(prunedPromoted);
        pending := pending - |prunedPromoted|;
      }
      CleanUpNone(index, height);
      if prunedEnqueued != [] {
        Cleanup(prunedEnqueued);
      }
      assert AccountValues() == was;
    }

    method Reindex(mined: seq<Tx>)
      requires Valid()
      modifies this`index
      ensures Valid() && Value() == Without(old(Value()), mined)
    {
      hide Forget;
      ghost var was := AccountValues();
      index := RemoveAll(index, mined);
      assert AccountValues() == was;
    }

    /** Transactions of an abandoned branch come back. */
    method AddReturned(returned: seq<Returned>)
      requires Valid()
      modifies this
      ensures Valid() && executables == old(executables) && Value() == AddAll(old(Value()), returned)
      ensures fresh(accounts.Values - old(accounts.Values))
    {
      hide TxPool.AddTx;
      for i := 0 to |returned|
        invariant Valid() && executables == old(executables)
        invariant Value() == AddAll(old(Value()), returned[..i]) && fresh(accounts.Values - old(accounts.Values))
      {
        assert returned[..i + 1][..i] == returned[..i];
        var err := AddTx(returned[i].t, returned[i].valid);
      }
      assert returned[..|returned|] == returned;
    }

    /** A new block: its transactions leave the index, those of the branch it replaces return,
        its senders' accounts are reset, and a node that does not seal counts skips. */
    method ProcessEvent(mined: seq<Tx>, returned: seq<Returned>, order: seq<Address>, sealing: bool, all: seq<Address>)
      requires Valid() && AccountsInv(Value())
      modifies this, accounts.Values
      ensures Valid() && executables == old(executables)
      ensures (ProcessEventKeepsInv(old(Value()), mined, returned, order);
               var done := TxPool.ProcessEvent(old(Value()), mined, returned, order);
               Value() == if sealing then done else UpdateAllSkips(done, all, set x | x in order))
    {
      hide ResetAll, AddAll, Forget, AccountsInv, UpdateAllSkips;
      ProcessEventKeepsInv(Value(), mined, returned, order);
      Reindex(mined);
      AddReturned(returned);
      ResetAccounts(order);
      if !sealing {
        UpdateAccountSkipsCounts(all, set x | x in order);
      }
    }

    // ---------- Building a block ----------

    /** Gathers the head of every promoted queue. */
    method Prepare(order: seq<Address>)
      requires Valid()
      modifies this`executables
      ensures executables == Primaries(Value(), order) && Value() == old(Value())
    {
      hide PushHead;
      var primaries := [];
      for i := 0 to |order|
        invariant primaries == Primaries(Value(), order[..i])
      {
        assert order[..i + 1][..i] == order[..i];
        if order[i] in accounts {
          primaries := accounts[order[i]].PushPrimary(primaries);
        }
      }
      assert order[..|order|] == order;
      ghost var was := AccountValues();
      executables := primaries;
      assert AccountValues() == was;
    }

    method Peek() returns (t: Option<Tx>)
      modifies this`executables
      ensures Value() == old(Value())
      ensures old(executables) == [] ==> t == None && executables == []
      ensures old(executables) != [] ==>
                t == Some(old(executables)[0]) && executables == Heap.Popped(PriceLess, old(executables))
    {
      hide Heap.Popped;
      ghost var was := AccountValues();
      if executables == [] {
        return None;
      }
      var head;
      executables, head := Heap.Pop(PriceLess, executables);
      t := Some(head);
      assert AccountValues() == was;
    }

    ghost function Building(successful: seq<Tx>, excluded: set<Address>): Builder
      reads this, accounts.Values
    {
      Builder(Value(), executables, successful, excluded)
    }

    /** One turn of the loop: the best transaction is tried, and the pool told what came of it. */
    method Turn(gasLimit: uint64, answer: WriteOutcome, successful: seq<Tx>, ghost excluded: set<Address>)
      returns (successful': seq<Tx>, more: bool, ghost excluded': set<Address>)
      requires Valid() && executables != [] && executables[0].from in accounts && !answer.TimedOut?
      modifies this, accounts[executables[0].from]
      ensures Valid() && accounts == old(accounts)
      ensures (Building(successful', excluded'), more) == Pick(old(Building(successful, excluded)), gasLimit, answer)
    {
      hide TxPool.Pop, TxPool.Drop, TxPool.Demote, PushHead, Heap.Popped;
      var peeked := Peek();
      var t := peeked.value;
      successful', more, excluded' := successful, true, excluded;
      if t.gas > gasLimit {
        Drop(t);
        excluded' := excluded + {t.from};
        return;
      }
      match answer
      case GasLimitReached =>
        more := false;
      case Recoverable =>
        Demote(t);
        excluded' := excluded + {t.from};
      case Unrecoverable =>
        Drop(t);
        excluded' := excluded + {t.from};
      case Written =>
        Pop(t);
        successful' := successful + [t];
    }

    /** Fills a block. `answers` is what each write of a transaction comes to. */
    method WriteTransactions(gasLimit: uint64, answers: nat -> WriteOutcome, order: seq<Address>)
      returns (successful: seq<Tx>, ghost excluded: set<Address>)
      requires Valid() && PoolInv(Value())
      requires Distinct(order) && forall x :: x in accounts ==> x in order
      modifies this, accounts.Values
      ensures Valid() && accounts == old(accounts)
      ensures (PrepareReady(old(Value()), order);
               Building(successful, excluded) == Build(BlockBuilder.Prepare(old(Value()), order), gasLimit, answers, 0))
    {
      hide PoolInv, BuilderInv, Pick;
      PrepareReady(Value(), order);
      Prepare(order);
      successful, excluded := [], {};
      ghost var goal := Build(Building(successful, excluded), gasLimit, answers, 0);
      var turn := 0;
      while executables != [] && !answers(turn).TimedOut?
        invariant Valid() && accounts == old(accounts) && BuilderInv(Building(successful, excluded))
        invariant Build(Building(successful, excluded), gasLimit, answers, turn) == goal
        decreases (BuilderPool(Building(successful, excluded)); PendingIsCount(Value()); pending), |executables|
      {
        ghost var b := Building(successful, excluded);
        BuilderPool(b);
        PendingIsCount(b.pool);
        PickKeepsInv(b, gasLimit, answers(turn));
        PickMakesProgress(b, gasLimit, answers(turn));
        var more;
        successful, more, excluded := Turn(gasLimit, answers(turn), successful, excluded);
        if !more {
          return;
        }
        turn := turn + 1;
      }
    }
  }
}
