/** The loop that fills a block from the pool (consensus/dev/dev.go and
    consensus/ibft/consensus_backend.go, writeTransactions; txpool/txpool.go, Prepare, Peek).
    What a write of a transaction to the state yields is an arbitrary answer each time. */
module BlockBuilder {
  import opened Wrappers
  import opened Words
  import opened Heap
  import opened TxAccount
  import opened TxPool
  import opened PoolRuns
  import Sums

  /** Higher price first, prices compared by their low 64 bits. */
  predicate PriceLess(a: Tx, b: Tx) {
    Wrap(a.gasPrice) > Wrap(b.gasPrice)
  }

  lemma PriceOrder()
    ensures Order(PriceLess)
  {
    hide Wrap;
  }

  /** `TimedOut` is the deadline of the consensus round, checked before each transaction. */
  datatype WriteOutcome = Written | GasLimitReached | Recoverable | Unrecoverable | TimedOut

  /** `excluded` are the senders whose transaction was demoted or dropped in this block. */
  datatype Builder = Builder(pool: Pool, executables: seq<Tx>, executed: seq<Tx>, excluded: set<Address>)

  // ---------- The loop ----------

  function PushHead(executables: seq<Tx>, a: Account): seq<Tx> {
    if a.promoted == [] then executables else Pushed(PriceLess, executables, a.promoted[0])
  }

  /** The heads of all promoted queues, visited in the given order. */
  function Primaries(p: Pool, order: seq<Address>): seq<Tx> {
    if order == [] then [] else
      var x := order[|order| - 1];
      var rest := Primaries(p, order[..|order| - 1]);
      if x in p.accounts then PushHead(rest, p.accounts[x]) else rest
  }

  ghost function Prepare(p: Pool, order: seq<Address>): Builder {
    Builder(p, Primaries(p, order), [], {})
  }

  /** Whether the loop goes on, and the state then. */
  ghost function Pick(b: Builder, gasLimit: uint64, answer: WriteOutcome): (r: (Builder, bool))
    requires b.executables != [] && b.executables[0].from in b.pool.accounts && !answer.TimedOut?
  {
    var t := b.executables[0];
    var rest := Popped(PriceLess, b.executables);
    var c := b.(executables := rest);
    if t.gas > gasLimit then
      (c.(pool := Drop(b.pool, t), excluded := b.excluded + {t.from}), true)
    else
      match answer
      case GasLimitReached => (c, false)
      case Recoverable => (c.(pool := Demote(b.pool, t), excluded := b.excluded + {t.from}), true)
      case Unrecoverable => (c.(pool := Drop(b.pool, t), excluded := b.excluded + {t.from}), true)
      case Written =>
        var pool := TxPool.Pop(b.pool, t);
        (c.(pool := pool, executables := PushHead(rest, pool.accounts[t.from]), executed := b.executed + [t]), true)
  }

  // ---------- The invariant ----------

  predicate IsHead(p: Pool, t: Tx) {
    t.from in p.accounts && p.accounts[t.from].promoted != [] && p.accounts[t.from].promoted[0] == t
  }

  /** The executables are heads of promoted queues, at most one per account. */
  ghost predicate HeadsOnly(b: Builder) {
    && IsHeap(PriceLess, b.executables)
    && (forall t :: t in b.executables ==> IsHead(b.pool, t) && multiset(b.executables)[t] == 1 && t.from !in b.excluded)
  }

  /** They are all heads but the excluded accounts'. */
  ghost predicate Complete(b: Builder) {
    forall x :: x in b.pool.accounts && x !in b.excluded && b.pool.accounts[x].promoted != [] ==>
      b.pool.accounts[x].promoted[0] in b.executables
  }

  function NoncesOf(executed: seq<Tx>, x: Address): seq<int> {
    if executed == [] then [] else
      var t := executed[|executed| - 1];
      NoncesOf(executed[..|executed| - 1], x) + if t.from == x then [t.nonce as int] else []
  }

  predicate Consecutive(nonces: seq<int>) {
    forall i :: 0 < i < |nonces| ==> nonces[i] == nonces[i - 1] + 1
  }

  /** The nonces a sender has executed run on to the start of its promoted run. */
  ghost predicate InSequence(b: Builder, x: Address) {
    var ns := NoncesOf(b.executed, x);
    && Consecutive(ns)
    && (ns != [] && x !in b.excluded ==> x in b.pool.accounts && ns[|ns| - 1] + 1 == Base(b.pool.accounts[x]))
  }

  /** What holds whatever else happens to the pool between the turns. */
  ghost predicate Core(b: Builder) {
    && AccountsInv(b.pool) && HeadsOnly(b)
    && forall x {:trigger InSequence(b, x)} :: InSequence(b, x)
  }

  ghost predicate BuilderInv(b: Builder) {
    Core(b) && Complete(b) && PoolInv(b.pool)
  }

  /** Equal elements of a heap's slice and of its multiset. */
  lemma PushReady(q: seq<Tx>, t: Tx)
    requires IsHeap(PriceLess, q)
    ensures IsHeap(PriceLess, Pushed(PriceLess, q, t)) && multiset(Pushed(PriceLess, q, t)) == multiset(q) + multiset{t}
  {
    PriceOrder();
    PushKeepsHeap(PriceLess, q, t);
  }

  lemma PopReady(q: seq<Tx>)
    requires IsHeap(PriceLess, q) && q != []
    ensures IsHeap(PriceLess, Popped(PriceLess, q)) && multiset(q) == multiset(Popped(PriceLess, q)) + multiset{q[0]}
  {
    PriceOrder();
    PopKeepsHeap(PriceLess, q);
  }

  // ---------- Prepare ----------

  predicate Distinct(order: seq<Address>) {
    forall i, j :: 0 <= i < j < |order| ==> order[i] != order[j]
  }

  ghost predicate PrimariesOk(p: Pool, order: seq<Address>, q: seq<Tx>) {
    && IsHeap(PriceLess, q)
    && (forall t :: t in q ==> IsHead(p, t) && multiset(q)[t] == 1 && t.from in order)
    && (forall x :: x in order && x in p.accounts && p.accounts[x].promoted != [] ==> p.accounts[x].promoted[0] in q)
  }

  lemma HeadOwner(p: Pool, x: Address)
    requires AccountsInv(p) && x in p.accounts && p.accounts[x].promoted != []
    ensures p.accounts[x].promoted[0].from == x
  {
    HeldByOwner(p, x);
  }

  lemma {:induction false} PrimariesAreHeads(p: Pool, order: seq<Address>)
    requires AccountsInv(p) && Distinct(order)
    ensures PrimariesOk(p, order, Primaries(p, order))
  {
    if order != [] {
      var n := |order| - 1;
      var x := order[n];
      PrimariesAreHeads(p, order[..n]);
      hide AccountsInv;
      assert order == order[..n] + [x];
      assert x !in order[..n];
      if x in p.accounts && p.accounts[x].promoted != [] {
        HeadOwner(p, x);
        PrimariesOneMore(p, order[..n], x);
      }
    }
  }

  lemma PrimariesOneMore(p: Pool, order: seq<Address>, x: Address)
    requires PrimariesOk(p, order, Primaries(p, order)) && x !in order
    requires x in p.accounts && p.accounts[x].promoted != [] && p.accounts[x].promoted[0].from == x
    ensures PrimariesOk(p, order + [x], Pushed(PriceLess, Primaries(p, order), p.accounts[x].promoted[0]))
  {
    var q, h := Primaries(p, order), p.accounts[x].promoted[0];
    PushReady(q, h);
    var r := Pushed(PriceLess, q, h);
    assert h !in q;
    forall t | t in r ensures IsHead(p, t) && multiset(r)[t] == 1 && t.from in order + [x] {
      assert t in multiset(r);
      assert t in multiset(q) || t == h;
    }
    forall y | y in order + [x] && y in p.accounts && p.accounts[y].promoted != []
      ensures p.accounts[y].promoted[0] in r
    {
      assert p.accounts[y].promoted[0] in multiset(r);
    }
  }

  /** Preparing a block gathers the head of every promoted queue. */
  lemma PrepareReady(p: Pool, order: seq<Address>)
    requires PoolInv(p) && Distinct(order) && (forall x :: x in p.accounts ==> x in order)
    ensures BuilderInv(Prepare(p, order))
  {
    hide AccountsInv, IndexInv, Counted, Primaries;
    PrimariesAreHeads(p, order);
    forall x ensures InSequence(Prepare(p, order), x) {
    }
  }

  // ---------- One turn of the loop ----------

  /** The rest of the executables belong to other senders. */
  lemma RestAreOthers(b: Builder)
    requires HeadsOnly(b) && b.executables != []
    ensures var t, rest := b.executables[0], Popped(PriceLess, b.executables);
            && IsHeap(PriceLess, rest) && multiset(b.executables) == multiset(rest) + multiset{t}
            && (forall u :: u in rest ==> u in b.executables && u.from != t.from)
            && (forall u :: u in b.executables && u != t ==> u in rest)
  {
    PopReady(b.executables);
    var t, rest := b.executables[0], Popped(PriceLess, b.executables);
    hide Popped;
    forall u | u in rest ensures u in b.executables && u.from != t.from {
      assert u in multiset(rest);
      assert u in multiset(b.executables);
      assert t in b.executables && IsHead(b.pool, t) && IsHead(b.pool, u);
    }
    forall u | u in b.executables && u != t ensures u in rest {
      assert u in multiset(b.executables);
      assert u in multiset(rest);
    }
  }

  /** `p` and `q` differ in the account of `x` only. */
  predicate SameElsewhere(p: Pool, q: Pool, x: Address) {
    && q.accounts.Keys == p.accounts.Keys
    && forall y :: y in p.accounts && y != x ==> q.accounts[y] == p.accounts[y]
  }

  /** The head of an account's queue was sent by its owner. */
  ghost predicate Owned(p: Pool) {
    forall x :: x in p.accounts && p.accounts[x].promoted != [] ==> p.accounts[x].promoted[0].from == x
  }

  lemma PoolOwned(p: Pool)
    requires AccountsInv(p)
    ensures Owned(p)
  {
    hide AccountsInv;
    forall x | x in p.accounts && p.accounts[x].promoted != [] ensures p.accounts[x].promoted[0].from == x {
      HeadOwner(p, x);
    }
  }

  /** The builder once its best transaction is taken off and its sender excluded. */
  function Excluded(b: Builder, pool: Pool): Builder
    requires b.executables != []
  {
    b.(executables := Popped(PriceLess, b.executables), pool := pool,
       excluded := b.excluded + {b.executables[0].from})
  }

  lemma ExcludeHeads(b: Builder, pool: Pool)
    requires HeadsOnly(b) && b.executables != [] && SameElsewhere(b.pool, pool, b.executables[0].from)
    ensures HeadsOnly(Excluded(b, pool))
  {
    RestAreOthers(b);
    var t, rest := b.executables[0], Popped(PriceLess, b.executables);
    hide Popped;
    forall u | u in rest ensures multiset(rest)[u] == 1 && IsHead(pool, u) && u.from !in b.excluded + {t.from} {
      assert u in multiset(rest) && u != t;
      assert multiset(b.executables)[u] == 1;
    }
  }

  lemma ExcludeComplete(b: Builder, pool: Pool)
    requires HeadsOnly(b) && Complete(b) && Owned(b.pool) && b.executables != []
    requires SameElsewhere(b.pool, pool, b.executables[0].from)
    ensures Complete(Excluded(b, pool))
  {
    RestAreOthers(b);
    var t, rest := b.executables[0], Popped(PriceLess, b.executables);
    hide Popped, IsHeap;
    forall x | x in pool.accounts && x !in b.excluded + {t.from} && pool.accounts[x].promoted != []
      ensures pool.accounts[x].promoted[0] in rest
    {
      assert b.pool.accounts[x].promoted[0] in b.executables;
    }
  }

  lemma ExcludeInSequence(b: Builder, c: Builder, y: Address, x: Address)
    requires InSequence(b, x) && SameElsewhere(b.pool, c.pool, y)
    requires c.executed == b.executed && c.excluded == b.excluded + {y}
    ensures InSequence(c, x)
  {
  }

  lemma ExcludeKeepsCore(b: Builder, pool: Pool)
    requires Core(b) && b.executables != [] && AccountsInv(pool) && SameElsewhere(b.pool, pool, b.executables[0].from)
    ensures Core(Excluded(b, pool))
    ensures Complete(b) ==> Complete(Excluded(b, pool))
  {
    hide AccountsInv, HeadsOnly, Complete, InSequence, SameElsewhere;
    var y, c := b.executables[0].from, Excluded(b, pool);
    PoolOwned(b.pool);
    ExcludeHeads(b, pool);
    if Complete(b) {
      ExcludeComplete(b, pool);
    }
    forall x ensures InSequence(c, x) {
      assert InSequence(b, x);
      ExcludeInSequence(b, c, y, x);
    }
  }

  lemma PopElsewhere(p: Pool, t: Tx)
    requires t.from in p.accounts
    ensures SameElsewhere(p, TxPool.Pop(p, t), t.from)
    ensures SameElsewhere(p, Drop(p, t), t.from)
    ensures SameElsewhere(p, Demote(p, t), t.from)
  {
    hide Lowered, PopTx;
  }

  lemma PushHeadReady(q: seq<Tx>, a: Account)
    requires IsHeap(PriceLess, q)
    ensures IsHeap(PriceLess, PushHead(q, a)) && multiset(PushHead(q, a)) == multiset(q) + HeadOf(a)
  {
    if a.promoted != [] {
      PushReady(q, a.promoted[0]);
    }
  }

  lemma WrittenHeads(b: Builder, pool: Pool, rest: seq<Tx>, next: seq<Tx>, u: Tx)
    requires HeadsOnly(b) && b.executables != [] && Owned(pool) && SameElsewhere(b.pool, pool, b.executables[0].from)
    requires b.executables[0].from in pool.accounts
    requires multiset(b.executables) == multiset(rest) + multiset{b.executables[0]}
    requires forall u :: u in rest ==> u in b.executables && u.from != b.executables[0].from
    requires multiset(next) == multiset(rest) + HeadOf(pool.accounts[b.executables[0].from])
    requires u in next
    ensures multiset(next)[u] == 1 && IsHead(pool, u) && u.from !in b.excluded
  {
    var t := b.executables[0];
    assert t in b.executables && u in multiset(next);
    if u in rest {
      assert multiset(b.executables)[u] == 1;
    } else {
      assert u !in multiset(rest);
    }
  }

  lemma WrittenComplete(b: Builder, pool: Pool, rest: seq<Tx>, next: seq<Tx>, x: Address)
    requires HeadsOnly(b) && Complete(b) && b.executables != [] && Owned(b.pool)
    requires SameElsewhere(b.pool, pool, b.executables[0].from)
    requires forall u :: u in b.executables && u != b.executables[0] ==> u in rest
    requires b.executables[0].from in pool.accounts
    requires multiset(next) == multiset(rest) + HeadOf(pool.accounts[b.executables[0].from])
    requires x in pool.accounts && x !in b.excluded && pool.accounts[x].promoted != []
    ensures pool.accounts[x].promoted[0] in next
  {
    if x != b.executables[0].from {
      assert b.pool.accounts[x].promoted[0] in b.executables;
    }
    assert pool.accounts[x].promoted[0] in multiset(next);
  }

  /** The builder once its best transaction is written and the next of its sender offered. */
  function Next(b: Builder, pool: Pool): Builder
    requires b.executables != [] && b.executables[0].from in pool.accounts
  {
    b.(executables := PushHead(Popped(PriceLess, b.executables), pool.accounts[b.executables[0].from]),
       pool := pool, executed := b.executed + [b.executables[0]])
  }

  lemma WrittenReady(b: Builder, pool: Pool)
    requires Owned(b.pool) && Owned(pool)
    requires HeadsOnly(b) && b.executables != [] && SameElsewhere(b.pool, pool, b.executables[0].from)
    requires b.executables[0].from in pool.accounts
    ensures HeadsOnly(Next(b, pool))
    ensures Complete(b) ==> Complete(Next(b, pool))
  {
    hide Popped, PushHead, IsHeap, Owned, SameElsewhere, HeadOf;
    RestAreOthers(b);
    var rest := Popped(PriceLess, b.executables);
    var next := PushHead(rest, pool.accounts[b.executables[0].from]);
    PushHeadReady(rest, pool.accounts[b.executables[0].from]);
    forall u | u in next ensures multiset(next)[u] == 1 && IsHead(pool, u) && u.from !in b.excluded {
      WrittenHeads(b, pool, rest, next, u);
    }
    if Complete(b) {
      forall x | x in pool.accounts && x !in b.excluded && pool.accounts[x].promoted != []
        ensures pool.accounts[x].promoted[0] in next
      {
        WrittenComplete(b, pool, rest, next, x);
      }
    }
  }

  lemma NoncesOneMore(executed: seq<Tx>, t: Tx, x: Address)
    ensures NoncesOf(executed + [t], x) == NoncesOf(executed, x) + if t.from == x then [t.nonce as int] else []
  {
    assert (executed + [t])[..|executed|] == executed;
  }

  /** The executed head carries on the nonces of its sender. */
  lemma WrittenInSequence(b: Builder, c: Builder, x: Address)
    requires InSequence(b, x) && b.executables != [] && IsHead(b.pool, b.executables[0])
    requires b.executables[0].from !in b.excluded
    requires AccountOk(b.pool.accounts[b.executables[0].from])
    requires c.pool == TxPool.Pop(b.pool, b.executables[0]) && c.executed == b.executed + [b.executables[0]]
    requires c.excluded == b.excluded
    ensures InSequence(c, x)
  {
    hide Lowered, PopTx, GapFree, QueueOk;
    var t := b.executables[0];
    var a := b.pool.accounts[t.from];
    GapFreePop(a.promoted, a.nextNonce);
    PopTxOk(a.promoted);
    NoncesOneMore(b.executed, t, x);
  }

  lemma WrittenKeepsCore(b: Builder)
    requires Core(b) && b.executables != []
    ensures var t := b.executables[0];
            && t.from in b.pool.accounts
            && Core(Next(b, TxPool.Pop(b.pool, t)))
            && (Complete(b) ==> Complete(Next(b, TxPool.Pop(b.pool, t))))
  {
    hide AccountsInv, TxPool.Pop, PushHead, Popped, InSequence, Owned, SameElsewhere, Complete, IsHeap;
    var t := b.executables[0];
    assert t in b.executables;
    var pool := TxPool.Pop(b.pool, t);
    PopKeepsInv(b.pool, t);
    PopElsewhere(b.pool, t);
    PoolOwned(b.pool);
    PoolOwned(pool);
    SameKeys(b.pool, pool, t.from);
    WrittenReady(b, pool);
    HeldByOwner(b.pool, t.from);
    var c := Next(b, pool);
    forall x ensures InSequence(c, x) {
      assert InSequence(b, x);
      WrittenInSequence(b, c, x);
    }
  }

  lemma SameKeys(p: Pool, q: Pool, x: Address)
    requires SameElsewhere(p, q, x) && x in p.accounts
    ensures x in q.accounts
  {
  }

  lemma LowestIsHead(p: Pool, t: Tx)
    requires IsHead(p, t)
    ensures Lowest(p.accounts[t.from]) == Some(t)
  {
  }

  /** The best transaction is the head, and so the lowest, of its account. */
  lemma CoreHead(b: Builder)
    requires Core(b) && b.executables != []
    ensures var t := b.executables[0];
            IsHead(b.pool, t) && t.from in b.pool.accounts && Lowest(b.pool.accounts[t.from]) == Some(t)
  {
    hide AccountsInv, InSequence;
    assert b.executables[0] in b.executables;
    LowestIsHead(b.pool, b.executables[0]);
  }

  /** Each turn of the loop, whatever the write answers, keeps the executables the heads of
      their queues and the executed nonces in sequence. */
  lemma PickKeepsCore(b: Builder, gasLimit: uint64, answer: WriteOutcome)
    requires Core(b) && b.executables != [] && !answer.TimedOut?
    ensures b.executables[0].from in b.pool.accounts
    ensures var (c, more) := Pick(b, gasLimit, answer);
            more ==> Core(c) && (Complete(b) ==> Complete(c))
  {
    hide Core, Complete, AccountsInv, TxPool.Pop, Drop, Demote, PushHead, SameElsewhere, Popped, IndexInv, Counted;
    var t := b.executables[0];
    CorePool(b);
    CoreHead(b);
    DropKeepsInv(b.pool, t);
    DemoteKeepsInv(b.pool, t);
    PopElsewhere(b.pool, t);
    ExcludeKeepsCore(b, Drop(b.pool, t));
    ExcludeKeepsCore(b, Demote(b.pool, t));
    WrittenKeepsCore(b);
  }

  lemma CorePool(b: Builder)
    requires Core(b)
    ensures AccountsInv(b.pool)
  {
  }

  /** The transaction the loop tries is one the pool's books and index can be told about. */
  lemma HeadKeepsPool(p: Pool, t: Tx)
    requires PoolInv(p) && IsHead(p, t)
    ensures PoolInv(TxPool.Pop(p, t)) && PoolInv(Drop(p, t)) && PoolInv(Demote(p, t))
  {
    hide AccountsInv, IndexInv, Counted, TxPool.Pop, Drop, Demote, DoubtsBelow;
    LowestIsHead(p, t);
    LowestIsSafe(p, t);
    PopKeepsInv(p, t);
    PopCountsIff(p, t);
    DropKeepsInv(p, t);
    DropKeepsIndexIff(p, t);
    DemoteKeepsInv(p, t);
  }

  lemma PickKeepsInv(b: Builder, gasLimit: uint64, answer: WriteOutcome)
    requires BuilderInv(b) && b.executables != [] && !answer.TimedOut?
    ensures b.executables[0].from in b.pool.accounts
    ensures var (c, more) := Pick(b, gasLimit, answer); more ==> BuilderInv(c)
  {
    hide Core, Complete, PoolInv, TxPool.Pop, Drop, Demote, PushHead, Popped;
    CoreHead(b);
    HeadKeepsPool(b.pool, b.executables[0]);
    PickKeepsCore(b, gasLimit, answer);
  }

  lemma BuilderPool(b: Builder)
    requires BuilderInv(b)
    ensures PoolInv(b.pool)
  {
  }

  // ---------- Termination ----------

  lemma PendingIsCount(p: Pool)
    requires PoolInv(p)
    ensures p.pending >= 0
  {
    hide Sums.Sum, AccountsInv, IndexInv, Weights;
    Sums.SumNonNegative(Pendings(p.accounts));
  }

  /** Every turn uses up a promoted transaction or an executable. */
  lemma PickMakesProgress(b: Builder, gasLimit: uint64, answer: WriteOutcome)
    requires b.executables != [] && b.executables[0].from in b.pool.accounts && !answer.TimedOut?
    ensures var c := Pick(b, gasLimit, answer).0;
            c.pool.pending < b.pool.pending || (c.pool.pending == b.pool.pending && |c.executables| < |b.executables|)
  {
    hide Lowered, PopTx, Popped, Pushed;
  }

  /** The whole loop. */
  ghost function Build(b: Builder, gasLimit: uint64, answers: nat -> WriteOutcome, turn: nat): Builder
    requires BuilderInv(b)
    decreases (BuilderPool(b); PendingIsCount(b.pool); b.pool.pending), |b.executables|
  {
    if b.executables == [] || answers(turn).TimedOut? then b else
      PickKeepsInv(b, gasLimit, answers(turn));
      PickMakesProgress(b, gasLimit, answers(turn));
      var (c, more) := Pick(b, gasLimit, answers(turn));
      if more then Build(c, gasLimit, answers, turn + 1) else c
  }

  /** A pick has the highest price, by its low 64 bits, among all available heads: every
      account whose transaction was not demoted or dropped in this block. */
  lemma PickIsBest(b: Builder, x: Address)
    requires BuilderInv(b) && b.executables != []
    requires x in b.pool.accounts && x !in b.excluded && b.pool.accounts[x].promoted != []
    ensures IsHead(b.pool, b.executables[0])
    ensures Wrap(b.pool.accounts[x].promoted[0].gasPrice) <= Wrap(b.executables[0].gasPrice)
  {
    hide AccountsInv, PoolInv, InSequence, Wrap;
    var q := b.executables;
    var h := b.pool.accounts[x].promoted[0];
    assert q[0] in q && h in q;
    var i :| 0 <= i < |q| && q[i] == h;
    PriceOrder();
    RootIsFirst(PriceLess, q, i);
  }

  /** An available head offers no more than the pick if and only if it does so counted in
      units of 2^64: what lies below is compared, what lies above is not. */
  lemma PickIsBestPriceIff(b: Builder, x: Address)
    requires BuilderInv(b) && b.executables != []
    requires x in b.pool.accounts && x !in b.excluded && b.pool.accounts[x].promoted != []
    ensures var head, pick := b.pool.accounts[x].promoted[0].gasPrice, b.executables[0].gasPrice;
            head <= pick <==> head / TWO_64 <= pick / TWO_64
  {
    hide BuilderInv;
    PickIsBest(b, x);
    LowBitsDecide(b.pool.accounts[x].promoted[0].gasPrice, b.executables[0].gasPrice);
  }

  lemma LowBitsDecide(x: nat, y: nat)
    requires Wrap(x) <= Wrap(y)
    ensures x <= y <==> x / TWO_64 <= y / TWO_64
  {
  }

  /** A pool with two senders and one promoted transaction of each. */
  function Two(t: Tx, u: Tx, maxSlots: uint64, maxEnqueued: nat): Pool
    requires t.nonce < MAX_UINT64 && u.nonce < MAX_UINT64
  {
    Pool(map[t.from := Account([], [t], t.nonce + 1, 0, 0, maxEnqueued),
             u.from := Account([], [u], u.nonce + 1, 0, 0, maxEnqueued)],
         map[t.hash := t, u.hash := u], Wrap(Slots(t) + Slots(u)), maxSlots, 2, multiset{}, maxEnqueued, map[])
  }

  lemma OnePromotedOk(t: Tx, maxEnqueued: nat)
    requires t.nonce < MAX_UINT64
    ensures var a := Account([], [t], t.nonce + 1, 0, 0, maxEnqueued);
            AccountOk(a) && All(a) == multiset{t} && WeightOf(a) == Slots(t)
  {
    var a := Account([], [t], t.nonce + 1, 0, 0, maxEnqueued);
    assert multiset(a.promoted) == multiset{t};
    assert t in multiset{t};
    assert HasNonce(multiset{t}, t.nonce);
    SlotSumOne(t);
  }

  lemma TwoIsWellFormed(t: Tx, u: Tx, maxSlots: uint64, maxEnqueued: nat)
    requires t.nonce < MAX_UINT64 && u.nonce < MAX_UINT64 && t.from != u.from && t.hash != u.hash
    ensures PoolInv(Two(t, u, maxSlots, maxEnqueued))
  {
    hide Two, AccountsInv, IndexInv, Counted;
    OnePromotedOk(t, maxEnqueued);
    OnePromotedOk(u, maxEnqueued);
    TwoListed(t, u, maxSlots, maxEnqueued);
    TwoCounted(t, u, maxSlots, maxEnqueued);
  }

  lemma TwoListed(t: Tx, u: Tx, maxSlots: uint64, maxEnqueued: nat)
    requires t.nonce < MAX_UINT64 && u.nonce < MAX_UINT64 && t.from != u.from && t.hash != u.hash
    ensures AccountsInv(Two(t, u, maxSlots, maxEnqueued)) && IndexInv(Two(t, u, maxSlots, maxEnqueued))
  {
    hide AccountOk, All, WeightOf, Slots, Wrap;
    var p := Two(t, u, maxSlots, maxEnqueued);
    OnePromotedOk(t, maxEnqueued);
    OnePromotedOk(u, maxEnqueued);
    assert HeldOk(p, t.from) && HeldOk(p, u.from) && ListedOk(p, t.from) && ListedOk(p, u.from);
  }

  lemma TwoCounted(t: Tx, u: Tx, maxSlots: uint64, maxEnqueued: nat)
    requires t.nonce < MAX_UINT64 && u.nonce < MAX_UINT64 && t.from != u.from
    ensures Counted(Two(t, u, maxSlots, maxEnqueued))
  {
    hide AccountOk, All, WeightOf, Sums.Sum, Slots, Wrap;
    var p := Two(t, u, maxSlots, maxEnqueued);
    OnePromotedOk(t, maxEnqueued);
    OnePromotedOk(u, maxEnqueued);
    TwoSum(Weights(p.accounts), t.from, u.from);
    TwoSum(Pendings(p.accounts), t.from, u.from);
  }

  lemma TwoSum(m: map<Address, int>, x: Address, y: Address)
    requires x != y && m.Keys == {x, y}
    ensures Sums.Sum(m) == m[x] + m[y]
  {
    Sums.SumWithout(m, x);
    Sums.SumWithout(m - {x}, y);
    assert (m - {x} - {y}).Keys == {};
  }

  /** Of two senders the one with the higher price loses whenever its low 64 bits are less:
      the pick of the block is the cheaper transaction. */
  lemma HugePriceLoses(t: Tx, u: Tx, maxSlots: uint64, maxEnqueued: nat)
    requires t.nonce < MAX_UINT64 && u.nonce < MAX_UINT64 && t.from != u.from && t.hash != u.hash
    requires t.gasPrice > u.gasPrice && Wrap(t.gasPrice) < Wrap(u.gasPrice)
    ensures var b := Prepare(Two(t, u, maxSlots, maxEnqueued), [t.from, u.from]);
            BuilderInv(b) && t in b.executables && b.executables[0] == u
  {
    hide PoolInv, BuilderInv, Wrap, Primaries;
    var p := Two(t, u, maxSlots, maxEnqueued);
    TwoIsWellFormed(t, u, maxSlots, maxEnqueued);
    PrepareReady(p, [t.from, u.from]);
    var b := Prepare(p, [t.from, u.from]);
    PicksOneOf(b, t, u);
    PickIsBest(b, u.from);
  }

  lemma PicksOneOf(b: Builder, t: Tx, u: Tx)
    requires BuilderInv(b) && b.excluded == {} && b.pool.accounts.Keys == {t.from, u.from}
    requires b.pool.accounts[t.from].promoted == [t] && b.pool.accounts[u.from].promoted == [u]
    ensures t in b.executables && b.executables != [] && (b.executables[0] == t || b.executables[0] == u)
  {
    hide PoolInv, AccountsInv, InSequence, IsHeap;
    assert b.pool.accounts[t.from].promoted[0] in b.executables;
    assert b.executables[0] in b.executables;
  }

  /** The pool is well formed, and each sender's executed nonces are consecutive. */
  ghost predicate AllConsecutive(b: Builder) {
    PoolInv(b.pool) && forall x :: Consecutive(NoncesOf(b.executed, x))
  }

  lemma PickStopsInSequence(b: Builder, gasLimit: uint64, answer: WriteOutcome)
    requires BuilderInv(b) && b.executables != [] && !answer.TimedOut?
    ensures b.executables[0].from in b.pool.accounts
    ensures var (c, more) := Pick(b, gasLimit, answer); !more ==> c.pool == b.pool && c.executed == b.executed
  {
    hide AccountsInv, PoolInv, TxPool.Pop, Drop, Demote, PushHead, InSequence;
    assert b.executables[0] in b.executables;
  }

  lemma {:induction false} BuildKeepsSequence(b: Builder, gasLimit: uint64, answers: nat -> WriteOutcome, turn: nat)
    requires BuilderInv(b)
    ensures var r := Build(b, gasLimit, answers, turn);
            AllConsecutive(r)
    decreases (BuilderPool(b); PendingIsCount(b.pool); b.pool.pending), |b.executables|
  {
    hide BuilderInv, PoolInv, AllConsecutive, Pick;
    BuilderSequence(b);
    BuilderPool(b);
    PendingIsCount(b.pool);
    if b.executables != [] && !answers(turn).TimedOut? {
      PickKeepsInv(b, gasLimit, answers(turn));
      PickMakesProgress(b, gasLimit, answers(turn));
      PickStopsInSequence(b, gasLimit, answers(turn));
      var (c, more) := Pick(b, gasLimit, answers(turn));
      if more {
        BuildKeepsSequence(c, gasLimit, answers, turn + 1);
      } else {
        StoppedConsecutive(b, c);
      }
    }
  }

  lemma StoppedConsecutive(b: Builder, c: Builder)
    requires AllConsecutive(b) && c.pool == b.pool && c.executed == b.executed
    ensures AllConsecutive(c)
  {
  }

  lemma BuilderSequence(b: Builder)
    requires BuilderInv(b)
    ensures AllConsecutive(b)
  {
    hide AccountsInv, PoolInv, HeadsOnly, Complete;
    forall x ensures Consecutive(NoncesOf(b.executed, x)) {
      assert InSequence(b, x);
    }
  }

  /** Building a block from any pool, for any answers and any deadline: the loop ends, the
      pool stays well formed, and each sender's executed nonces are consecutive. */
  lemma BuiltBlockInSequence(p: Pool, order: seq<Address>, gasLimit: uint64, answers: nat -> WriteOutcome)
    requires PoolInv(p) && Distinct(order) && (forall x :: x in p.accounts ==> x in order)
    ensures BuilderInv(Prepare(p, order))
    ensures var r := Build(Prepare(p, order), gasLimit, answers, 0);
            AllConsecutive(r)
  {
    hide PoolInv, BuilderInv, Build;
    PrepareReady(p, order);
    BuildKeepsSequence(Prepare(p, order), gasLimit, answers, 0);
  }

  // ---------- Other handlers between the turns ----------

  /** Steps of other handlers while a block is built: additions, enqueue and promote requests,
      pruning of holes, and movements of the chain. */
  predicate Quiet(e: Event) {
    e.AddEvent? || e.EnqueueEvent? || e.PromoteEvent? || e.PruneEvent? || e.StateEvent?
  }

  /** A promotion adds behind the head. */
  lemma PromoteKeepsHead(a: Account)
    requires AccountOk(a) && Stops(a.enqueued, a.nextNonce) && a.promoted != []
    ensures var b := TxAccount.Promote(a).0; b.promoted != [] && b.promoted[0] == a.promoted[0]
  {
    hide TxAccount.Promote, BestRun, Stops, PopTx;
    PromoteMovesBestRun(a);
    PromoteKeepsOk(a);
    var (b, moved, pruned) := TxAccount.Promote(a);
    assert a.promoted[0] in multiset(b.promoted);
    assert |multiset(b.promoted)| == |multiset(a.promoted)| + |multiset(moved)|;
    GapFreePop(a.promoted, a.nextNonce);
    GapFreePop(b.promoted, b.nextNonce);
    assert b.promoted[0] in multiset(b.promoted);
  }

  /** Accounts keep their heads and where their runs start. */
  ghost predicate HeadsStay(p: Pool, q: Pool) {
    && p.accounts.Keys <= q.accounts.Keys
    && forall x {:trigger SameHead(p, q, x)} :: x in p.accounts ==> SameHead(p, q, x)
  }

  predicate SameHead(p: Pool, q: Pool, x: Address)
    requires x in p.accounts
  {
    && x in q.accounts && Base(q.accounts[x]) == Base(p.accounts[x])
    && (p.accounts[x].promoted != [] ==>
          q.accounts[x].promoted != [] && q.accounts[x].promoted[0] == p.accounts[x].promoted[0])
  }

  lemma PromoteStays(p: Pool, x: Address)
    requires AccountsInv(p) && x in p.accounts && Stops(p.accounts[x].enqueued, p.accounts[x].nextNonce)
    ensures HeadsStay(p, HandlePromote(p, x))
  {
    hide TxAccount.Promote, Lowered, Forget, Stops, AccountOk, ForgetsOnly, SlotSum;
    HeldByOwner(p, x);
    var b, gone := PromoteShrinks(p, x);
    var a := p.accounts[x];
    assert HandlePromote(p, x).accounts[x] == b;
    if a.promoted != [] {
      PromoteKeepsHead(a);
    }
    forall y | y in p.accounts ensures SameHead(p, HandlePromote(p, x), y) {
    }
  }

  lemma QuietStays(p: Pool, e: Event)
    requires AccountsInv(p) && Callable(p, e) && Quiet(e)
    ensures HeadsStay(p, Step(p, e))
  {
    hide AccountsInv, AddTx, HandleEnqueue, HandlePromote, PruneHole, HeadsStay, Stops;
    match e
    case PromoteEvent(x) => PromoteStays(p, x);
    case AddEvent(t, valid) => AddStays(p, t, valid);
    case EnqueueEvent(t) => EnqueueKeepsInv(p, t); EnqueueStays(p, t);
    case PruneEvent(x) => PruneStays(p, x);
    case StateEvent(x, n) => StateStays(p, x, n);
  }

  lemma AddStays(p: Pool, t: Tx, valid: bool)
    ensures HeadsStay(p, AddTx(p, t, valid).0)
  {
    hide Slots, HighPressure, Wrap;
    forall y | y in p.accounts ensures SameHead(p, AddTx(p, t, valid).0, y) {
    }
  }

  lemma EnqueueStays(p: Pool, t: Tx)
    requires t.from in p.accounts
    ensures HeadsStay(p, HandleEnqueue(p, t))
  {
    hide Slots, PushTx, Forget, Wrap;
    forall y | y in p.accounts ensures SameHead(p, HandleEnqueue(p, t), y) {
    }
  }

  lemma PruneStays(p: Pool, x: Address)
    requires x in p.accounts
    ensures HeadsStay(p, PruneHole(p, x))
  {
    hide Lowered, Forget;
    forall y | y in p.accounts ensures SameHead(p, PruneHole(p, x), y) {
    }
  }

  lemma StateStays(p: Pool, x: Address, n: uint64)
    ensures HeadsStay(p, p.(stateNonces := p.stateNonces[x := n]))
  {
    forall y | y in p.accounts ensures SameHead(p, p.(stateNonces := p.stateNonces[x := n]), y) {
    }
  }

  lemma HeadsStayCore(b: Builder, pool: Pool)
    requires Core(b) && AccountsInv(pool) && HeadsStay(b.pool, pool)
    ensures Core(b.(pool := pool))
  {
    hide AccountsInv;
    var c := b.(pool := pool);
    forall t | t in c.executables ensures IsHead(pool, t) {
      assert IsHead(b.pool, t);
      assert SameHead(b.pool, pool, t.from);
    }
    forall x ensures InSequence(c, x) {
      assert InSequence(b, x);
      assert x in b.pool.accounts ==> SameHead(b.pool, pool, x);
    }
  }

  /** A turn of the loop, or a step of another handler. */
  datatype Move = Turn(answer: WriteOutcome) | Other(e: Event)

  ghost predicate CanMove(b: Builder, m: Move) {
    match m
    case Turn(answer) => b.executables != [] && b.executables[0].from in b.pool.accounts && !answer.TimedOut?
    case Other(e) => Callable(b.pool, e) && Quiet(e)
  }

  /** The state after the move; `more` is false once the loop has ended. */
  ghost function Moved(b: Builder, gasLimit: uint64, m: Move): (r: (Builder, bool))
    requires Core(b) && CanMove(b, m)
  {
    match m
    case Turn(answer) => Pick(b, gasLimit, answer)
    case Other(e) => CorePool(b); (b.(pool := Step(b.pool, e)), true)
  }

  lemma MoveKeepsCore(b: Builder, gasLimit: uint64, m: Move)
    requires Core(b) && CanMove(b, m)
    ensures var (c, more) := Moved(b, gasLimit, m); more ==> Core(c)
  {
    hide Core, Pick, Step, Callable;
    match m
    case Turn(answer) => PickKeepsCore(b, gasLimit, answer);
    case Other(e) =>
      CorePool(b);
      StepKeepsAccounts(b.pool, e);
      QuietStays(b.pool, e);
      HeadsStayCore(b, Step(b.pool, e));
  }

  /** The loop, with steps of other handlers before, between and after its turns. */
  ghost predicate Interleaved(states: seq<Builder>, gasLimit: uint64, moves: seq<Move>) {
    && |states| == |moves| + 1
    && forall i :: 0 <= i < |moves| ==> MovesTo(states[i], gasLimit, moves[i], states[i + 1])
  }

  ghost predicate MovesTo(b: Builder, gasLimit: uint64, m: Move, c: Builder) {
    Core(b) ==> CanMove(b, m) && Moved(b, gasLimit, m) == (c, true)
  }

  /** Whatever the other handlers do in between: every executable is its account's promoted
      head, once, and each sender's executed nonces are consecutive. */
  lemma {:induction false} InterleavedInSequence(states: seq<Builder>, gasLimit: uint64, moves: seq<Move>, k: nat)
    requires Interleaved(states, gasLimit, moves) && Core(states[0]) && k <= |moves|
    ensures Core(states[k])
    ensures HeadsOnly(states[k]) && forall x :: Consecutive(NoncesOf(states[k].executed, x))
  {
    if k > 0 {
      InterleavedInSequence(states, gasLimit, moves, k - 1);
      hide Core, CanMove, Moved;
      assert MovesTo(states[k - 1], gasLimit, moves[k - 1], states[k]);
      MoveKeepsCore(states[k - 1], gasLimit, moves[k - 1]);
    }
    CoreSequence(states[k]);
  }

  lemma CoreSequence(b: Builder)
    requires Core(b)
    ensures HeadsOnly(b) && forall x :: Consecutive(NoncesOf(b.executed, x))
  {
    hide AccountsInv, HeadsOnly;
    forall x ensures Consecutive(NoncesOf(b.executed, x)) {
      assert InSequence(b, x);
    }
  }
}
