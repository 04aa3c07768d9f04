/** What each operation of the pool and each turn of the block builder changes, and what not,
    in terms of the accounts, the index and the counters (txpool/txpool.go,
    txpool/account.go, consensus/dev/dev.go, consensus/ibft/consensus_backend.go). */
module PoolAnswers {
  import opened Wrappers
  import opened Words
  import opened Heap
  import opened TxAccount
  import opened TxPool
  import opened BlockBuilder

  // ---------- What changed ----------

  /** Nothing but the account of `x`, the index and the two counters is different. */
  ghost predicate OnlyAt(p: Pool, q: Pool, x: Address) {
    && SameElsewhere(p, q, x) && q.inFlight == p.inFlight && q.maxSlots == p.maxSlots
    && q.maxEnqueued == p.maxEnqueued && q.stateNonces == p.stateNonces
  }

  ghost predicate SameBooks(p: Pool, q: Pool) {
    q.index == p.index && q.height == p.height && q.pending == p.pending
  }

  /** The index has lost the hashes of `gone`, and nothing else. */
  ghost predicate Unindexed(p: Pool, q: Pool, gone: multiset<Tx>) {
    && (forall t :: t in gone ==> t.hash !in q.index)
    && (forall h :: h in q.index ==> h in p.index && q.index[h] == p.index[h])
    && (forall h :: h in p.index && h !in q.index ==> exists t :: t in gone && t.hash == h)
  }

  /** Both queues of the sender are empty and its next nonce is the transaction's; what it held
      is out of the index and off both counters. */
  ghost predicate ClearedFor(p: Pool, q: Pool, t: Tx)
    requires t.from in p.accounts
  {
    var a := p.accounts[t.from];
    && OnlyAt(p, q, t.from)
    && t.from in q.accounts
    && q.accounts[t.from].promoted == [] && q.accounts[t.from].enqueued == []
    && q.accounts[t.from].nextNonce == t.nonce
    && Unindexed(p, q, All(a))
    && q.height == Wrap(p.height - SlotSum(All(a))) && q.pending == p.pending - |a.promoted|
  }

  lemma ForgottenTwice(index: map<Hash, Tx>, a: seq<Tx>, b: seq<Tx>)
    ensures var index' := Forget(Forget(index, a), b);
            && (forall t :: t in multiset(a) + multiset(b) ==> t.hash !in index')
            && (forall h :: h in index' ==> h in index && index'[h] == index[h])
            && (forall h :: h in index && h !in index' ==> exists t :: t in multiset(a) + multiset(b) && t.hash == h)
  {
    forall t | t in multiset(a) + multiset(b) ensures t.hash !in Forget(Forget(index, a), b) {
      assert t in a || t in b;
    }
    ForgetTwiceIsLimited(index, a, b);
  }

  lemma DropClears(p: Pool, t: Tx)
    requires t.from in p.accounts
    ensures ClearedFor(p, Drop(p, t), t)
    ensures var a, b := p.accounts[t.from], Drop(p, t).accounts[t.from];
            b.demotions == a.demotions && b.skips == a.skips && b.maxEnqueued == a.maxEnqueued
  {
    hide SlotSum, Lowered, Forget, Wrap;
    var a := p.accounts[t.from];
    assert All(a) == multiset(a.promoted) + multiset(a.enqueued);
    ForgottenTwice(p.index, a.promoted, a.enqueued);
    LoweredTwice(p.height, a.promoted, a.enqueued);
  }

  // ---------- One turn of the builder ----------

  /** At the limit of demotions, too, which then start again. */
  lemma DemoteClears(p: Pool, t: Tx)
    requires t.from in p.accounts && p.accounts[t.from].demotions >= 10
    ensures ClearedFor(p, Demote(p, t), t) && Demote(p, t).accounts[t.from].demotions == 0
  {
    DropClears(p, t);
    hide Drop;
    ClearedCounters(p, Drop(p, t), Demote(p, t), t);
  }

  lemma ClearedCounters(p: Pool, q: Pool, r: Pool, t: Tx)
    requires t.from in p.accounts && ClearedFor(p, q, t)
    requires r == q.(accounts := r.accounts) && t.from in r.accounts
    requires var b := r.accounts[t.from];
             r.accounts == q.accounts[t.from := q.accounts[t.from].(demotions := b.demotions, skips := b.skips)]
    ensures ClearedFor(p, r, t)
  {
    hide SlotSum, Wrap, All;
  }

  /** A transaction above the block's gas limit, one that fails for good, and one that fails
      for the eleventh time: everything of its sender is dropped. */
  lemma TurnDrops(b: Builder, gasLimit: uint64, answer: WriteOutcome)
    requires b.executables != [] && b.executables[0].from in b.pool.accounts && !answer.TimedOut?
    requires var t := b.executables[0];
             t.gas > gasLimit || answer.Unrecoverable?
             || (answer.Recoverable? && b.pool.accounts[t.from].demotions >= 10)
    ensures var t := b.executables[0];
            var (c, more) := Pick(b, gasLimit, answer);
            && more && ClearedFor(b.pool, c.pool, t)
            && c.executed == b.executed && c.excluded == b.excluded + {t.from}
  {
    hide Drop, Demote, Popped, ClearedFor;
    var t := b.executables[0];
    DropClears(b.pool, t);
    if b.pool.accounts[t.from].demotions >= 10 {
      DemoteClears(b.pool, t);
    }
  }

  /** One that may succeed later: the sender's queues, its next nonce, the index and the
      counters stay, and its demotions are counted. */
  lemma TurnDemotes(b: Builder, gasLimit: uint64)
    requires b.executables != [] && b.executables[0].from in b.pool.accounts
    requires b.executables[0].gas <= gasLimit && b.pool.accounts[b.executables[0].from].demotions < 10
    ensures var t := b.executables[0];
            var (c, more) := Pick(b, gasLimit, Recoverable);
            && more && OnlyAt(b.pool, c.pool, t.from) && SameBooks(b.pool, c.pool)
            && var a, a' := b.pool.accounts[t.from], c.pool.accounts[t.from];
            && a'.promoted == a.promoted && a'.enqueued == a.enqueued && a'.nextNonce == a.nextNonce
            && a'.demotions == a.demotions + 1 && a'.skips == a.skips
            && c.executed == b.executed && c.excluded == b.excluded + {t.from}
  {
    hide Drop, Popped;
  }

  /** Popping a head takes exactly that transaction. */
  lemma PopTakes(p: Pool, t: Tx)
    requires AccountsInv(p) && IsHead(p, t)
    ensures var q := TxPool.Pop(p, t);
            && OnlyAt(p, q, t.from) && q.index == p.index
            && var a, b := p.accounts[t.from], q.accounts[t.from];
            && multiset(b.promoted) + multiset{t} == multiset(a.promoted) && b.enqueued == a.enqueued
            && b.nextNonce == a.nextNonce && b.demotions == 0 && b.skips == a.skips
            && q.height == Wrap(p.height - Slots(t)) && q.pending == p.pending - 1
  {
    hide SlotSum, Slots, Wrap, Lowered, PopTx;
    HeldByOwner(p, t.from);
    hide AccountsInv, GapFree, AtLeast;
    PopTxOk(p.accounts[t.from].promoted);
    LoweredBy(p.height, [t]);
    assert multiset([t]) == multiset{t};
    SlotSumOne(t);
  }

  /** One that was written: exactly the head has left the sender's promoted queue, the next
      head is offered, and the transaction is appended to the block. */
  lemma TurnWrites(b: Builder, gasLimit: uint64)
    requires AccountsInv(b.pool) && HeadsOnly(b) && b.executables != [] && b.executables[0].gas <= gasLimit
    ensures b.executables[0].from in b.pool.accounts
    ensures var t := b.executables[0];
            var (c, more) := Pick(b, gasLimit, Written);
            && more && OnlyAt(b.pool, c.pool, t.from) && c.pool.index == b.pool.index
            && var a, a' := b.pool.accounts[t.from], c.pool.accounts[t.from];
            && multiset(a'.promoted) + multiset{t} == multiset(a.promoted) && a'.enqueued == a.enqueued
            && a'.nextNonce == a.nextNonce && a'.demotions == 0 && a'.skips == a.skips
            && c.pool.height == Wrap(b.pool.height - Slots(t)) && c.pool.pending == b.pool.pending - 1
            && c.executed == b.executed + [t] && c.excluded == b.excluded
            && multiset(c.executables) + multiset{t} == multiset(b.executables) + HeadOf(a')
  {
    hide AccountsInv, Slots, Wrap, Popped, TxPool.Pop, PushHead, HeadOf;
    var t := b.executables[0];
    assert IsHead(b.pool, t);
    PopTakes(b.pool, t);
    PopReady(b.executables);
    PushHeadReady(Popped(PriceLess, b.executables), TxPool.Pop(b.pool, t).accounts[t.from]);
    hide IsHeap, HeadsOnly, SameElsewhere;
  }

  /** A full block: nothing changes but the offer, and the loop ends. */
  lemma TurnStops(b: Builder, gasLimit: uint64)
    requires HeadsOnly(b) && b.executables != [] && b.executables[0].from in b.pool.accounts
    requires b.executables[0].gas <= gasLimit
    ensures var (c, more) := Pick(b, gasLimit, GasLimitReached);
            && !more && c.pool == b.pool && c.executed == b.executed && c.excluded == b.excluded
            && multiset(c.executables) + multiset{b.executables[0]} == multiset(b.executables)
  {
    PopReady(b.executables);
    hide Popped, IsHeap;
  }

  // ---------- Adding ----------

  /** A transaction takes as many slots of 32 kB as its size needs. */
  lemma SlotsCover(t: Tx)
    ensures 32768 * Slots(t) >= t.size && (t.size > 0 ==> 32768 * (Slots(t) - 1) < t.size)
    ensures t.size == 0 ==> Slots(t) == 0
  {
  }

  /** A transaction is accepted if and only if it is valid and not passed by the state, fits
      the gauge and is not known; when more than four fifths of the gauge are used, only if its
      sender is new or it is not ahead of the sender's next nonce. */
  lemma AddTxIff(p: Pool, t: Tx, valid: bool)
    ensures AddTx(p, t, valid).1.None? <==>
            && valid && StateNonce(p, t.from) <= t.nonce && t.hash !in p.index
            && Wrap(p.height + Slots(t)) <= p.maxSlots
            && (100 * p.height > Wrap(80 * p.maxSlots) && t.from in p.accounts ==>
                  t.nonce <= p.accounts[t.from].nextNonce)
    ensures AddTx(p, t, valid).1.Some? ==> AddTx(p, t, valid).0 == p
  {
    hide Slots;
    Percent(p.height, Wrap(80 * p.maxSlots));
  }

  lemma Percent(height: nat, n: nat)
    ensures height > n / 100 <==> 100 * height > n
  {
  }

  /** An accepted one is indexed and requested to be enqueued; its sender has an account, and
      nothing else is different. */
  lemma AddTxAnnounces(p: Pool, t: Tx, valid: bool)
    requires AddTx(p, t, valid).1.None?
    ensures var q := AddTx(p, t, valid).0;
            && q.index == p.index[t.hash := t] && q.inFlight == p.inFlight + multiset{t}
            && q.accounts.Keys == p.accounts.Keys + {t.from}
            && (forall y :: y in p.accounts ==> q.accounts[y] == p.accounts[y])
            && (t.from !in p.accounts ==>
                  var a := q.accounts[t.from];
                  && a.promoted == [] && a.enqueued == [] && a.nextNonce == StateNonce(p, t.from)
                  && a.demotions == 0 && a.skips == 0 && a.maxEnqueued == p.maxEnqueued)
            && q.height == p.height && q.pending == p.pending
            && q.maxSlots == p.maxSlots && q.maxEnqueued == p.maxEnqueued && q.stateNonces == p.stateNonces
  {
    hide Slots;
  }

  lemma GrantedEnqueues(p: Pool, t: Tx)
    requires AccountsInv(p) && t.from in p.accounts
    requires var a := p.accounts[t.from]; |a.enqueued| < a.maxEnqueued && t.nonce >= a.nextNonce
    ensures var q, a := HandleEnqueue(p, t), p.accounts[t.from];
            && SameElsewhere(p, q, t.from) && q.inFlight == p.inFlight - multiset{t} && q.pending == p.pending
            && var b := q.accounts[t.from];
            && b == a.(enqueued := b.enqueued) && multiset(b.enqueued) == multiset(a.enqueued) + multiset{t}
            && q.height == Wrap(p.height + Slots(t)) && q.index == p.index
  {
    HeldByOwner(p, t.from);
    hide AccountsInv, Slots, GapFree, PushTx, Wrap, Forget, All;
    PushTxOk(p.accounts[t.from].enqueued, t);
  }

  lemma RefusedForgets(p: Pool, t: Tx)
    requires AccountsInv(p) && t.from in p.accounts
    requires var a := p.accounts[t.from]; !(|a.enqueued| < a.maxEnqueued && t.nonce >= a.nextNonce)
    ensures var q := HandleEnqueue(p, t);
            && q == p.(inFlight := p.inFlight - multiset{t}, index := q.index) && Unindexed(p, q, multiset{t})
  {
    HeldByOwner(p, t.from);
    hide AccountsInv, Slots, GapFree, PushTx, Wrap, Forget, All, Unindexed;
    Forgotten(p, HandleEnqueue(p, t), [t]);
    assert multiset([t]) == multiset{t};
  }

  /** A request is granted if and only if there is room and the nonce is not below the next
      one: its transaction is then enqueued and takes its slots. A refused one is forgotten. */
  lemma EnqueueIff(p: Pool, t: Tx)
    requires AccountsInv(p) && t.from in p.accounts
    ensures var q, a := HandleEnqueue(p, t), p.accounts[t.from];
            && SameElsewhere(p, q, t.from) && q.inFlight == p.inFlight - multiset{t} && q.pending == p.pending
            && var b := q.accounts[t.from];
            && b == a.(enqueued := b.enqueued)
            && (if |a.enqueued| < a.maxEnqueued && t.nonce >= a.nextNonce then
                  && multiset(b.enqueued) == multiset(a.enqueued) + multiset{t}
                  && q.height == Wrap(p.height + Slots(t)) && q.index == p.index
                else
                  && b == a && q.height == p.height && Unindexed(p, q, multiset{t}))
  {
    hide AccountsInv, Slots, Wrap, HandleEnqueue, Unindexed;
    var a := p.accounts[t.from];
    if |a.enqueued| < a.maxEnqueued && t.nonce >= a.nextNonce {
      GrantedEnqueues(p, t);
    } else {
      RefusedForgets(p, t);
    }
  }

  // ---------- Maintenance ----------

  /** An account's enqueued transactions are cleared if and only if there are some and none has
      the next nonce. */
  lemma PruneHoleIff(p: Pool, x: Address)
    requires AccountsInv(p) && x in p.accounts
    ensures var q, a := PruneHole(p, x), p.accounts[x];
            if a.enqueued == [] || Offers(a.enqueued, a.nextNonce) then q == p else
            && OnlyAt(p, q, x) && q.accounts[x] == a.(enqueued := [])
            && Unindexed(p, q, multiset(a.enqueued)) && q.pending == p.pending
            && q.height == Wrap(p.height - SlotSum(multiset(a.enqueued)))
  {
    hide SlotSum, Lowered, Wrap, Forget, Unindexed;
    var a := p.accounts[x];
    if a.enqueued != [] {
      EnqueuedOffers(p, x);
      LoweredBy(p.height, a.enqueued);
      Forgotten(p, PruneHole(p, x), a.enqueued);
    }
    hide AccountsInv, Offers;
  }

  lemma EnqueuedOffers(p: Pool, x: Address)
    requires AccountsInv(p) && x in p.accounts && p.accounts[x].enqueued != []
    ensures var a := p.accounts[x]; Offers(a.enqueued, a.nextNonce) <==> a.enqueued[0].nonce == a.nextNonce
  {
    HeldByOwner(p, x);
    hide AccountsInv, GapFree, All;
    var a := p.accounts[x];
    HeadIsFirst(a.enqueued);
    assert a.enqueued[0] in a.enqueued;
  }

  lemma Forgotten(p: Pool, q: Pool, txs: seq<Tx>)
    ensures q.index == Forget(p.index, txs) ==> Unindexed(p, q, multiset(txs))
  {
    if q.index == Forget(p.index, txs) {
      forall t | t in multiset(txs) ensures t.hash !in q.index {
        assert t in txs;
      }
      forall h | h in p.index && h !in q.index ensures exists t :: t in multiset(txs) && t.hash == h {
        assert h in Hashes(txs);
        var t :| t in txs && t.hash == h;
        assert t in multiset(txs);
      }
    }
  }

  /** An account with a transaction in the block starts its count of skips again; another that
      holds any counts one more, and at the tenth is emptied down to its lowest nonce. */
  lemma SkipsCount(p: Pool, x: Address, active: bool)
    requires AccountsInv(p) && x in p.accounts && forall t :: t in All(p.accounts[x]) ==> t.from == x
    ensures var q, a := UpdateSkips(p, x, active), p.accounts[x];
            && OnlyAt(p, q, x)
            && (active || |All(a)| == 0 || a.skips < 9 ==>
                  && SameBooks(p, q)
                  && q.accounts[x] == a.(skips := if active then 0 else if |All(a)| == 0 then a.skips else a.skips + 1))
            && (!active && |All(a)| > 0 && a.skips >= 9 ==>
                  exists t :: IsLowest(a, t) && ClearedFor(p, q, t) && q.accounts[x].skips == 0)
  {
    var a := p.accounts[x];
    NothingHeld(a);
    hide AccountsInv, All, SlotSum, Drop, ClearedFor, IsLowest;
    if !active && Lowest(a).Some? && a.skips >= 9 {
      SkippedClears(p, x);
    }
  }

  lemma NothingHeld(a: Account)
    ensures |All(a)| == 0 <==> Lowest(a).None?
  {
    assert |All(a)| == |a.enqueued| + |a.promoted|;
  }

  lemma SkippedClears(p: Pool, x: Address)
    requires AccountsInv(p) && x in p.accounts && (forall t :: t in All(p.accounts[x]) ==> t.from == x)
    requires Lowest(p.accounts[x]).Some? && p.accounts[x].skips >= 9
    ensures var q, t := UpdateSkips(p, x, false), Lowest(p.accounts[x]).value;
            t.from == x && IsLowest(p.accounts[x], t) && ClearedFor(p, q, t) && OnlyAt(p, q, x) && q.accounts[x].skips == 0
  {
    LowestIs(p, x);
    var t := Lowest(p.accounts[x]).value;
    DropClears(p, t);
    hide AccountsInv, All, SlotSum, Drop, IsLowest, Unindexed;
    ClearedCounters(p, Drop(p, t), UpdateSkips(p, x, false), t);
  }

  /** A held transaction no other is below. */
  ghost predicate IsLowest(a: Account, t: Tx) {
    t in All(a) && forall u :: u in All(a) ==> t.nonce <= u.nonce
  }

  lemma LowestIs(p: Pool, x: Address)
    requires AccountsInv(p) && x in p.accounts && Lowest(p.accounts[x]).Some?
    ensures IsLowest(p.accounts[x], Lowest(p.accounts[x]).value) && Lowest(p.accounts[x]).value.from == x
  {
    HeldByOwner(p, x);
    hide AccountsInv;
    var a := p.accounts[x];
    var t := Lowest(a).value;
    assert t in All(a);
    forall u | u in All(a) ensures t.nonce <= u.nonce {
      if u in multiset(a.promoted) {
        HeadIsFirst(a.promoted);
        assert u in a.promoted;
      } else {
        assert u in a.enqueued;
        if a.promoted == [] {
          HeadIsFirst(a.enqueued);
        } else {
          assert a.promoted[0] in multiset(a.promoted);
        }
      }
    }
  }

  lemma ResetQueues(a: Account, n: uint64, t: Tx)
    requires AccountOk(a)
    ensures var (b, pp, pe) := TxAccount.Reset(a, n);
            && multiset(b.promoted)[t] == (if t.nonce < n then 0 else multiset(a.promoted)[t])
            && multiset(b.enqueued)[t] == (if t.nonce < n then 0 else multiset(a.enqueued)[t])
            && b.nextNonce == (if a.nextNonce < n then n else a.nextNonce) && b.skips == a.skips
            && |pp| == |a.promoted| - |b.promoted|
            && (t in All(a) && t.nonce < n ==> t in multiset(pp) + multiset(pe))
  {
    ResetSplits(a, n);
    ResetCounts(a, n);
    ResetNonce(a, n);
    var (b, pp, pe) := TxAccount.Reset(a, n);
    hide TxAccount.Reset, AccountOk;
    CountStays(a.promoted, b.promoted, pp, n, t);
    CountStays(a.enqueued, b.enqueued, pe, n, t);
  }

  /** Aligning an account keeps of each queue exactly what the state has not passed, moves the
      next nonce up to the state's if it is below, and clears the demotions. */
  lemma ResetKeepsExactly(p: Pool, x: Address, t: Tx)
    requires AccountsInv(p) && x in p.accounts
    ensures var q, a, n := ResetOne(p, x), p.accounts[x], StateNonce(p, x);
            && OnlyAt(p, q, x)
            && var b := q.accounts[x];
            && multiset(b.promoted)[t] == (if t.nonce < n then 0 else multiset(a.promoted)[t])
            && multiset(b.enqueued)[t] == (if t.nonce < n then 0 else multiset(a.enqueued)[t])
            && b.nextNonce == (if a.nextNonce < n then n else a.nextNonce)
            && b.demotions == 0 && b.skips == a.skips
            && q.pending == p.pending - |a.promoted| + |b.promoted|
            && (t in All(a) && t.nonce < n ==> t.hash !in q.index)
  {
    HeldByOwner(p, x);
    hide AccountsInv, Lowered, Forget, TxAccount.Reset, AccountOk, All, QueueOk;
    var a, n := p.accounts[x], StateNonce(p, x);
    ResetQueues(a, n, t);
    var (b, pp, pe) := TxAccount.Reset(a, n);
    ForgottenTwice(p.index, pp, pe);
  }

  lemma ResetNonce(a: Account, n: uint64)
    ensures var b := TxAccount.Reset(a, n).0;
            b.nextNonce == (if a.nextNonce < n then n else a.nextNonce) && b.skips == a.skips
  {
  }

  lemma CountStays(q: Queue, kept: Queue, pruned: seq<Tx>, n: uint64, t: Tx)
    requires multiset(q) == multiset(kept) + multiset(pruned) && AtLeast(kept, n)
    requires forall u :: u in pruned ==> u.nonce < n
    ensures multiset(kept)[t] == if t.nonce < n then 0 else multiset(q)[t]
    ensures t.nonce < n ==> multiset(pruned)[t] == multiset(q)[t]
  {
    assert t in multiset(kept) ==> t in kept;
    assert t in multiset(pruned) ==> t in pruned;
  }

  /** After a block none of its transactions is known to the pool any more. */
  lemma MinedIsForgotten(p: Pool, mined: seq<Tx>, returned: seq<Returned>, order: seq<Address>)
    requires ReturnedOk(p, mined, returned)
    ensures forall m :: m in mined ==> m.hash !in ProcessEvent(p, mined, returned, order).index
  {
    hide ResetAll, AddAll, ReturnedOk;
    AddAllCommutes(p, mined, returned);
    ForgetCommutes(AddAll(p, returned), mined, order);
    forall m | m in mined ensures m.hash !in ProcessEvent(p, mined, returned, order).index {
      assert m.hash in Hashes(mined);
    }
  }

  // ---------- Visiting many accounts ----------

  lemma ResetOneAt(p: Pool, q: Pool, x: Address)
    requires x in p.accounts && x in q.accounts && q.accounts[x] == p.accounts[x] && q.stateNonces == p.stateNonces
    ensures ResetOne(q, x).accounts[x] == ResetOne(p, x).accounts[x]
  {
    hide TxAccount.Reset, Lowered, Forget;
  }

  /** Every account that is visited once is aligned as if it were the only one; the others stay. */
  lemma {:induction false} ResetAllAt(p: Pool, order: seq<Address>, x: Address)
    requires x in p.accounts && BlockBuilder.Distinct(order)
    ensures x in ResetAll(p, order).accounts && ResetAll(p, order).stateNonces == p.stateNonces
    ensures ResetAll(p, order).accounts[x] == if x in order then ResetOne(p, x).accounts[x] else p.accounts[x]
  {
    hide ResetOne;
    if order != [] {
      var n := |order| - 1;
      ResetAllAt(p, order[..n], x);
      var q := ResetAll(p, order[..n]);
      ResetOneFollows(q, order[n]);
      assert x in order <==> x in order[..n] || x == order[n];
      if x == order[n] {
        ResetOneAt(p, q, x);
      }
    }
  }

  lemma PruneHoleAt(p: Pool, q: Pool, x: Address)
    requires x in p.accounts && x in q.accounts && q.accounts[x] == p.accounts[x]
    ensures PruneHole(q, x).accounts[x] == PruneHole(p, x).accounts[x]
    ensures SameElsewhere(q, PruneHole(q, x), x)
  {
    hide Lowered, Forget;
  }

  lemma {:induction false} PruneHolesAt(p: Pool, order: seq<Address>, x: Address)
    requires x in p.accounts && BlockBuilder.Distinct(order) && forall y :: y in order ==> y in p.accounts
    ensures PruneHoles(p, order).accounts[x] == if x in order then PruneHole(p, x).accounts[x] else p.accounts[x]
  {
    hide PruneHole;
    if order != [] {
      var n := |order| - 1;
      PruneHolesAt(p, order[..n], x);
      var q := PruneHoles(p, order[..n]);
      assert order[n] in order;
      assert x in order <==> x in order[..n] || x == order[n];
      PruneHoleAt(q, q, order[n]);
      if x == order[n] {
        PruneHoleAt(p, q, x);
      }
    }
  }

  /** The account after its skips were counted. */
  function CountedSkip(a: Account, active: bool): Account {
    if active then a.(skips := 0)
    else if Lowest(a).None? then a
    else if a.skips + 1 < MAX_SKIPS then a.(skips := a.skips + 1)
    else Emptied(a, Lowest(a).value.nonce).(skips := 0)
  }

  lemma SkipsCounted(p: Pool, x: Address, active: bool)
    requires x in p.accounts && forall t :: t in All(p.accounts[x]) ==> t.from == x
    ensures UpdateSkips(p, x, active).accounts == p.accounts[x := CountedSkip(p.accounts[x], active)]
  {
    hide Drop, All;
    var a := p.accounts[x];
    LowestHeld(a);
    if !active && Lowest(a).Some? {
      var t := Lowest(a).value;
      DroppedAccount(p, t);
      SetTwice(p.accounts, x, Emptied(a, t.nonce), Emptied(a, t.nonce).(skips := 0));
    } else {
      SetSame(p.accounts, x);
    }
  }

  lemma LowestHeld(a: Account)
    ensures Lowest(a).Some? ==> Lowest(a).value in All(a)
  {
  }

  lemma SetTwice(m: map<Address, Account>, x: Address, a: Account, b: Account)
    ensures m[x := a][x := b] == m[x := b]
  {
  }

  lemma SetSame(m: map<Address, Account>, x: Address)
    requires x in m
    ensures m[x := m[x]] == m
  {
  }

  lemma DroppedAccount(p: Pool, t: Tx)
    requires t.from in p.accounts
    ensures Drop(p, t).accounts == p.accounts[t.from := Emptied(p.accounts[t.from], t.nonce)]
  {
    hide Lowered, Forget;
  }

  lemma SkipsAt(p: Pool, q: Pool, x: Address, active: bool)
    requires x in p.accounts && x in q.accounts && q.accounts[x] == p.accounts[x]
    requires forall t :: t in All(p.accounts[x]) ==> t.from == x
    ensures UpdateSkips(q, x, active).accounts[x] == UpdateSkips(p, x, active).accounts[x]
    ensures SameElsewhere(q, UpdateSkips(q, x, active), x)
  {
    hide All, UpdateSkips, CountedSkip;
    SkipsCounted(p, x, active);
    SkipsCounted(q, x, active);
  }

  lemma AllSkipsStep(p: Pool, order: seq<Address>, active: set<Address>)
    requires AccountsInv(p) && order != []
    ensures var q, x := UpdateAllSkips(p, order[..|order| - 1], active), order[|order| - 1];
            if x !in q.accounts then UpdateAllSkips(p, order, active) == q else
            && (forall t :: t in All(q.accounts[x]) ==> t.from == x)
            && UpdateAllSkips(p, order, active) == UpdateSkips(q, x, x in active)
  {
    var q, x := UpdateAllSkips(p, order[..|order| - 1], active), order[|order| - 1];
    if x in q.accounts {
      HeldByOwner(q, x);
    }
    hide AccountsInv, UpdateSkips, All;
  }

  lemma {:induction false} AllSkipsAt(p: Pool, order: seq<Address>, active: set<Address>, x: Address)
    requires AccountsInv(p) && x in p.accounts && BlockBuilder.Distinct(order)
    ensures forall t :: t in All(p.accounts[x]) ==> t.from == x
    ensures x in UpdateAllSkips(p, order, active).accounts
    ensures UpdateAllSkips(p, order, active).accounts[x] ==
            if x in order then UpdateSkips(p, x, x in active).accounts[x] else p.accounts[x]
  {
    HeldByOwner(p, x);
    hide UpdateSkips, AccountsInv, All;
    if order == [] {
      NoSkips(p, active);
    } else {
      var n := |order| - 1;
      AllSkipsAt(p, order[..n], active, x);
      AllSkipsStep(p, order, active);
      hide UpdateAllSkips;
      var q := UpdateAllSkips(p, order[..n], active);
      assert x in order <==> x in order[..n] || x == order[n];
      if order[n] in q.accounts {
        SkipsAt(q, q, order[n], order[n] in active);
      }
      if x == order[n] {
        assert x !in order[..n];
        SkipsAt(p, q, x, x in active);
      }
    }
  }

  lemma NoSkips(p: Pool, active: set<Address>)
    requires AccountsInv(p)
    ensures UpdateAllSkips(p, [], active) == p
  {
    hide AccountsInv;
  }

  lemma AddTxGrows(p: Pool, t: Tx, valid: bool, h: Hash)
    ensures h in p.index || (h == t.hash && AddTx(p, t, valid).1.None?) ==> h in AddTx(p, t, valid).0.index
  {
    hide Slots;
  }

  /** Transactions of an abandoned branch: each that the pool takes at its turn is known again
      once all have had theirs. */
  lemma {:induction false} ReturnedIsKnown(p: Pool, returned: seq<Returned>, i: nat)
    requires i < |returned|
    requires AddTx(AddAll(p, returned[..i]), returned[i].t, returned[i].valid).1.None?
    ensures returned[i].t.hash in AddAll(p, returned).index
  {
    hide AddTx;
    var n := |returned| - 1;
    var q, last, h := AddAll(p, returned[..n]), returned[n], returned[i].t.hash;
    if i < n {
      assert returned[..n][..i] == returned[..i];
      ReturnedIsKnown(p, returned[..n], i);
    }
    AddTxGrows(q, last.t, last.valid, h);
  }
}
