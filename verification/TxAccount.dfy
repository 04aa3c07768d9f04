/** The transactions of one sender in the pool: two heaps ordered by nonce and the nonce that
    separates them (txpool/account.go, txpool/queue.go). */
module TxAccount {
  import opened Wrappers
  import opened Words
  import opened Heap

  type Address = nat
  type Hash = nat

  datatype Tx = Tx(hash: Hash, from: Address, nonce: uint64, gasPrice: nat, gas: uint64, size: nat)

  type Queue = seq<Tx>

  /** Lower nonce first; for equal nonces, higher price first. */
  predicate NonceLess(a: Tx, b: Tx) {
    if a.nonce == b.nonce then a.gasPrice > b.gasPrice else a.nonce < b.nonce
  }

  lemma NonceOrder()
    ensures Order(NonceLess)
  {
  }

  ghost predicate QueueOk(q: Queue) {
    IsHeap(NonceLess, q)
  }

  /** The head of a queue has the lowest nonce and, for it, the highest price. */
  lemma HeadIsFirst(q: Queue)
    requires QueueOk(q) && q != []
    ensures forall t :: t in q ==> !NonceLess(t, q[0])
  {
    NonceOrder();
    forall t | t in q ensures !NonceLess(t, q[0]) {
      var i :| 0 <= i < |q| && q[i] == t;
      RootIsFirst(NonceLess, q, i);
    }
  }

  function PushTx(q: Queue, t: Tx): Queue { Pushed(NonceLess, q, t) }

  function PopTx(q: Queue): (r: Queue)
    requires q != []
    ensures |r| == |q| - 1
  {
    Popped(NonceLess, q)
  }

  lemma PushTxOk(q: Queue, t: Tx)
    requires QueueOk(q)
    ensures QueueOk(PushTx(q, t)) && multiset(PushTx(q, t)) == multiset(q) + multiset{t}
    ensures |PushTx(q, t)| == |q| + 1
  {
    NonceOrder();
    PushKeepsHeap(NonceLess, q, t);
  }

  lemma PopTxOk(q: Queue)
    requires QueueOk(q) && q != []
    ensures QueueOk(PopTx(q)) && multiset(q) == multiset(PopTx(q)) + multiset{q[0]}
    ensures |PopTx(q)| == |q| - 1
  {
    NonceOrder();
    PopKeepsHeap(NonceLess, q);
  }

  // ---------- Pruning ----------

  /** What stays and what goes when nonces below `nonce` are pruned. */
  function Prune(q: Queue, nonce: uint64): (r: (Queue, seq<Tx>))
    ensures |r.0| + |r.1| == |q|
    decreases |q|
  {
    if q == [] || q[0].nonce >= nonce then (q, []) else
      var (kept, pruned) := Prune(PopTx(q), nonce);
      (kept, [q[0]] + pruned)
  }

  /** Pruning splits the queue by nonce, losing nothing. */
  lemma {:induction false} PruneSplits(q: Queue, nonce: uint64)
    requires QueueOk(q)
    ensures var (kept, pruned) := Prune(q, nonce);
            && QueueOk(kept)
            && multiset(q) == multiset(kept) + multiset(pruned)
            && (forall t :: t in kept ==> t.nonce >= nonce)
            && (forall t :: t in pruned ==> t.nonce < nonce)
    decreases |q|
  {
    if q != [] {
      HeadIsFirst(q);
      if q[0].nonce < nonce {
        PopTxOk(q);
        PruneSplits(PopTx(q), nonce);
        var (kept, pruned) := Prune(PopTx(q), nonce);
        assert multiset([q[0]] + pruned) == multiset{q[0]} + multiset(pruned);
      }
    }
  }

  // ---------- Promotion ----------

  datatype Promotion = Promotion(
    enqueued: Queue, promoted: Queue, nextNonce: uint64, moved: seq<Tx>, pruned: seq<Tx>)

  /** Moves transactions over while they follow on in nonce. */
  function PromoteRun(e: Queue, p: Queue, next: uint64): Promotion
    decreases |e|
  {
    if e == [] || e[0].nonce != next then Promotion(e, p, next, [], []) else
      var after := Wrap(e[0].nonce + 1);
      var (kept, pruned) := Prune(PopTx(e), after);
      var r := PromoteRun(kept, PushTx(p, e[0]), after);
      r.(moved := [e[0]] + r.moved, pruned := pruned + r.pruned)
  }

  datatype Account = Account(
    enqueued: Queue, promoted: Queue, nextNonce: uint64, demotions: nat, skips: nat, maxEnqueued: nat)

  /** The account after a promotion, what was promoted and what was pruned on the way. */
  function Promote(a: Account): (Account, seq<Tx>, seq<Tx>) {
    if a.enqueued == [] || a.enqueued[0].nonce > a.nextNonce then (a, [], []) else
      var r := PromoteRun(a.enqueued, a.promoted, a.enqueued[0].nonce);
      (a.(enqueued := r.enqueued, promoted := r.promoted,
          nextNonce := if r.nextNonce > a.nextNonce then r.nextNonce else a.nextNonce),
       r.moved, r.pruned)
  }

  ghost predicate Offers(q: Queue, n: int) {
    exists t :: t in q && t.nonce == n
  }

  /** Some nonce from `next` on is missing, so that counting up ends before it wraps. */
  ghost predicate Stops(q: Queue, next: int) {
    exists n :: next <= n <= MAX_UINT64 && !Offers(q, n)
  }

  /** `moved` is the longest run of consecutive nonces that starts at `first`, each with a
      highest price offered for its nonce. */
  ghost predicate BestRun(e: Queue, first: int, moved: seq<Tx>) {
    && (forall i :: 0 <= i < |moved| ==>
          && moved[i] in e && moved[i].nonce == first + i
          && forall t :: t in e && t.nonce == moved[i].nonce ==> t.gasPrice <= moved[i].gasPrice)
    && (forall t :: t in e ==> t.nonce != first + |moved|)
  }

  /** A promotion from `next` on: nothing is lost, the longest best-priced run moves, and
      what stays behind cannot follow on. */
  ghost predicate Promotes(e: Queue, p: Queue, next: uint64, r: Promotion) {
    && QueueOk(r.enqueued) && QueueOk(r.promoted)
    && multiset(e) == multiset(r.enqueued) + multiset(r.moved) + multiset(r.pruned)
    && multiset(r.promoted) == multiset(p) + multiset(r.moved)
    && r.nextNonce == next + |r.moved|
    && (forall t :: t in r.enqueued ==> t.nonce > r.nextNonce)
    && (forall t :: t in r.pruned ==> next <= t.nonce < r.nextNonce)
    && BestRun(e, next, r.moved)
  }

  predicate AtLeast(q: Queue, n: int) {
    forall t :: t in q ==> t.nonce >= n
  }

  /** The queue without its head, whose nonce is `next`, split into later transactions and
      rivals for the same nonce. */
  ghost predicate SplitsOff(e: Queue, next: uint64, kept: Queue, pruned: seq<Tx>) {
    && e != [] && e[0].nonce == next < MAX_UINT64
    && multiset(e) == multiset(kept) + multiset(pruned) + multiset{e[0]}
    && (forall t :: t in e ==> t.nonce >= next && !NonceLess(t, e[0]))
    && AtLeast(kept, next + 1)
    && (forall t :: t in pruned ==> t.nonce < next + 1)
  }

  lemma SplitHead(e: Queue, next: uint64)
    requires QueueOk(e) && AtLeast(e, next) && e != [] && e[0].nonce == next < MAX_UINT64
    ensures Wrap(next + 1) == next + 1
    ensures var (kept, pruned) := Prune(PopTx(e), next + 1);
            && SplitsOff(e, next, kept, pruned) && QueueOk(kept) && AtLeast(kept, next + 1)
            && (Stops(e, next) <==> Stops(kept, next + 1))
  {
    hide PopTx, Prune, QueueOk, NonceLess;
    HeadIsFirst(e);
    assert e[0] in e;
    PopTxOk(e);
    PruneSplits(PopTx(e), next + 1);
    var (kept, pruned) := Prune(PopTx(e), next + 1);
    KeptAreLater(e, kept, pruned);
    StopsSame(e, kept, pruned, next);
  }

  lemma StopsSame(e: Queue, kept: Queue, pruned: seq<Tx>, next: uint64)
    requires e != [] && e[0].nonce == next < MAX_UINT64
    requires forall t :: t in kept ==> t in e
    requires forall t :: t in e ==> t in kept || t in pruned || t == e[0]
    requires forall t :: t in pruned ==> t.nonce < next + 1
    ensures Stops(e, next) <==> Stops(kept, next + 1)
  {
    assert e[0] in e;
    assert Offers(e, next);
    forall n | next < n ensures Offers(kept, n) <==> Offers(e, n) {
    }
  }

  /** A queue that stops and offers `next` is not at the last nonce. */
  lemma StopsBelowLast(e: Queue, next: uint64)
    requires Stops(e, next) && e != [] && e[0].nonce == next
    ensures next < MAX_UINT64
  {
    assert e[0] in e;
    assert Offers(e, next);
  }

  lemma {:induction false} PromoteRunSpec(e: Queue, p: Queue, next: uint64)
    requires QueueOk(e) && QueueOk(p) && Stops(e, next) && AtLeast(e, next)
    ensures Promotes(e, p, next, PromoteRun(e, p, next))
    decreases |e|
  {
    hide Promotes, QueueOk, Stops, Offers, SplitsOff, AtLeast, PopTx, PushTx, Prune;
    if e == [] || e[0].nonce != next {
      PromotesNothing(e, p, next);
    } else {
      StopsBelowLast(e, next);
      SplitHead(e, next);
      PushTxOk(p, e[0]);
      var (kept, pruned) := Prune(PopTx(e), next + 1);
      PromoteRunSpec(kept, PushTx(p, e[0]), next + 1);
      PromoteOneMore(e, p, next, kept, pruned, PromoteRun(kept, PushTx(p, e[0]), next + 1));
    }
  }

  lemma PromotesNothing(e: Queue, p: Queue, next: uint64)
    requires QueueOk(e) && QueueOk(p) && (e == [] || e[0].nonce != next) && AtLeast(e, next)
    ensures Promotes(e, p, next, Promotion(e, p, next, [], []))
  {
    if e != [] {
      HeadIsFirst(e);
      assert e[0] in e;
    }
  }

  lemma KeptAreLater(e: Queue, kept: Queue, pruned: seq<Tx>)
    requires e != [] && multiset(e) == multiset(kept) + multiset(pruned) + multiset{e[0]}
    ensures forall t :: t in kept ==> t in e
    ensures forall t :: t in pruned ==> t in e
    ensures forall t :: t in e ==> t in kept || t in pruned || t == e[0]
  {
    assert forall t :: t in kept ==> t in multiset(e);
    assert forall t :: t in pruned ==> t in multiset(e);
    assert forall t :: t in e ==> t in multiset(e);
  }

  lemma PromoteOneMore(e: Queue, p: Queue, next: uint64, kept: Queue, pruned: seq<Tx>, r: Promotion)
    requires SplitsOff(e, next, kept, pruned)
    requires multiset(PushTx(p, e[0])) == multiset(p) + multiset{e[0]}
    requires Promotes(kept, PushTx(p, e[0]), next + 1, r)
    ensures Promotes(e, p, next, r.(moved := [e[0]] + r.moved, pruned := pruned + r.pruned))
  {
    KeptAreLater(e, kept, pruned);
    assert multiset([e[0]] + r.moved) == multiset{e[0]} + multiset(r.moved);
    assert multiset(pruned + r.pruned) == multiset(pruned) + multiset(r.pruned);
    BestRunOneMore(e, next, kept, pruned, r.moved);
  }

  lemma BestRunOneMore(e: Queue, next: uint64, kept: Queue, pruned: seq<Tx>, moved: seq<Tx>)
    requires e != [] && e[0].nonce == next
    requires forall t :: t in kept ==> t in e
    requires forall t :: t in e ==> t in kept || t in pruned || t == e[0]
    requires forall t :: t in e ==> !NonceLess(t, e[0])
    requires forall t :: t in pruned ==> t.nonce < next + 1
    requires BestRun(kept, next + 1, moved)
    ensures BestRun(e, next, [e[0]] + moved)
  {
    var all := [e[0]] + moved;
    forall i | 0 <= i < |all|
      ensures all[i] in e && all[i].nonce == next + i
      ensures forall t :: t in e && t.nonce == all[i].nonce ==> t.gasPrice <= all[i].gasPrice
    {
      if i > 0 {
        assert all[i] == moved[i - 1];
      }
    }
  }

  // ---------- The account invariant ----------

  ghost predicate HasNonce(m: multiset<Tx>, n: int) {
    exists t :: t in m && t.nonce == n
  }

  /** Exactly one transaction for each nonce from `next - |m|` to `next - 1`. */
  ghost predicate GapFree(m: multiset<Tx>, next: int) {
    && |m| <= next
    && (forall t :: t in m ==> m[t] == 1 && next - |m| <= t.nonce < next)
    && (forall t, u :: t in m && u in m && t.nonce == u.nonce ==> t == u)
    && (forall n :: next - |m| <= n < next ==> HasNonce(m, n))
  }

  /** Promoted: a gap-free run that ends just below the next nonce. Enqueued: nonces from the
      next one on, no more of them than allowed. */
  ghost predicate AccountOk(a: Account) {
    && QueueOk(a.enqueued) && QueueOk(a.promoted)
    && GapFree(multiset(a.promoted), a.nextNonce)
    && AtLeast(a.enqueued, a.nextNonce)
    && |a.enqueued| <= a.maxEnqueued
  }

  lemma GapFreePush(m: multiset<Tx>, next: nat, t: Tx)
    requires GapFree(m, next) && t.nonce == next
    ensures GapFree(m + multiset{t}, next + 1)
  {
    var m' := m + multiset{t};
    forall n | next + 1 - |m'| <= n < next + 1 ensures HasNonce(m', n) {
      if n == next {
        assert t in m';
      } else {
        assert HasNonce(m, n);
        var u :| u in m && u.nonce == n;
        assert u in m';
      }
    }
  }

  /** The head of a gap-free queue has the lowest nonce; without it the run is one shorter. */
  lemma GapFreePop(q: Queue, next: nat)
    requires QueueOk(q) && q != [] && GapFree(multiset(q), next)
    ensures q[0].nonce == next - |q|
    ensures QueueOk(PopTx(q)) && GapFree(multiset(PopTx(q)), next)
  {
    var m := multiset(q);
    PopTxOk(q);
    HeadIsFirst(q);
    assert HasNonce(m, next - |m|);
    var u :| u in m && u.nonce == next - |m|;
    assert q[0] in m && u in q;
    var m' := m - multiset{q[0]};
    assert multiset(PopTx(q)) == m';
    forall n | next - |m'| <= n < next ensures HasNonce(m', n) {
      assert HasNonce(m, n);
      var w :| w in m && w.nonce == n;
      assert w in m';
    }
  }

  lemma {:induction false} PruneKeepsGapFree(q: Queue, nonce: uint64, next: nat)
    requires QueueOk(q) && GapFree(multiset(q), next)
    ensures QueueOk(Prune(q, nonce).0) && GapFree(multiset(Prune(q, nonce).0), next)
    decreases |q|
  {
    if q != [] && q[0].nonce < nonce {
      GapFreePop(q, next);
      PruneKeepsGapFree(PopTx(q), nonce, next);
    }
  }

  lemma {:induction false} PromoteRunGapFree(e: Queue, p: Queue, next: uint64)
    requires QueueOk(e) && QueueOk(p) && Stops(e, next) && AtLeast(e, next)
    requires GapFree(multiset(p), next)
    ensures var r := PromoteRun(e, p, next); GapFree(multiset(r.promoted), r.nextNonce)
    decreases |e|
  {
    hide GapFree, QueueOk, Stops, Offers, SplitsOff, AtLeast, PopTx, PushTx, Prune;
    if e != [] && e[0].nonce == next {
      StopsBelowLast(e, next);
      SplitHead(e, next);
      PushTxOk(p, e[0]);
      GapFreePush(multiset(p), next, e[0]);
      PromoteRunGapFree(Prune(PopTx(e), next + 1).0, PushTx(p, e[0]), next + 1);
    }
  }

  lemma PromotesLess(e: Queue, p: Queue, next: uint64, r: Promotion)
    requires Promotes(e, p, next, r)
    ensures QueueOk(r.enqueued) && QueueOk(r.promoted)
    ensures AtLeast(r.enqueued, r.nextNonce) && |r.enqueued| <= |e| && r.nextNonce >= next
  {
    assert |multiset(e)| == |e| && |multiset(r.enqueued)| == |r.enqueued|;
  }

  /** The promotable head of a well-formed account carries exactly the next nonce. */
  lemma PromoteStart(a: Account)
    requires AccountOk(a) && a.enqueued != [] && a.enqueued[0].nonce <= a.nextNonce
    ensures a.enqueued[0].nonce == a.nextNonce
  {
    assert a.enqueued[0] in a.enqueued;
  }

  /** Promotion keeps an account well formed that misses some later nonce. */
  lemma PromoteKeepsOk(a: Account)
    requires AccountOk(a) && Stops(a.enqueued, a.nextNonce)
    ensures AccountOk(Promote(a).0)
  {
    hide PromoteRun, GapFree, QueueOk, Promotes, AtLeast, Stops;
    if a.enqueued != [] && a.enqueued[0].nonce <= a.nextNonce {
      PromoteStart(a);
      PromoteRunSpec(a.enqueued, a.promoted, a.nextNonce);
      PromoteRunGapFree(a.enqueued, a.promoted, a.nextNonce);
      PromotesLess(a.enqueued, a.promoted, a.nextNonce, PromoteRun(a.enqueued, a.promoted, a.nextNonce));
    }
  }

  /** Promotion of a well-formed account moves exactly the longest gap-free run that starts
      at the next nonce, with a best-priced transaction for each nonce; promoted, pruned and
      remaining transactions together are the old enqueued queue. */
  lemma PromoteMovesBestRun(a: Account)
    requires AccountOk(a) && Stops(a.enqueued, a.nextNonce)
    ensures var (b, moved, pruned) := Promote(a);
            && BestRun(a.enqueued, a.nextNonce, moved)
            && multiset(a.enqueued) == multiset(b.enqueued) + multiset(moved) + multiset(pruned)
            && multiset(b.promoted) == multiset(a.promoted) + multiset(moved)
            && b.nextNonce == a.nextNonce + |moved|
            && (forall t :: t in pruned ==> a.nextNonce <= t.nonce < b.nextNonce)
            && (forall t :: t in b.enqueued ==> t.nonce > b.nextNonce)
  {
    hide PromoteRun, GapFree, Stops;
    if a.enqueued == [] || a.enqueued[0].nonce > a.nextNonce {
      PromotesNothing(a.enqueued, a.promoted, a.nextNonce);
    } else {
      PromoteStart(a);
      PromoteRunSpec(a.enqueued, a.promoted, a.nextNonce);
    }
  }

  lemma {:induction false} PruneNothing(q: Queue)
    ensures Prune(q, 0) == (q, [])
  {
  }

  /** A run up to the last nonce wraps: the next nonce reads zero. What was promoted stays. */
  lemma {:induction false} PromoteRunWraps(e: Queue, p: Queue, next: uint64)
    requires QueueOk(e) && QueueOk(p) && AtLeast(e, next) && !Stops(e, next)
    ensures var r := PromoteRun(e, p, next);
            r.nextNonce == 0 && Offers(r.promoted, next) && forall t :: t in p ==> t in r.promoted
    decreases |e|
  {
    hide PopTx, PushTx, Prune, QueueOk, NonceLess, Stops, AtLeast;
    OffersHead(e, next);
    PushTxOk(p, e[0]);
    PushedIn(p, e[0]);
    if next == MAX_UINT64 {
      PruneNothing(PopTx(e));
      LastRunEnds(e, PushTx(p, e[0]));
    } else {
      SplitHead(e, next);
      PromoteRunWraps(Prune(PopTx(e), next + 1).0, PushTx(p, e[0]), next + 1);
    }
  }

  lemma OffersHead(e: Queue, next: uint64)
    requires QueueOk(e) && AtLeast(e, next) && !Stops(e, next)
    ensures e != [] && e[0].nonce == next
  {
    assert Offers(e, next);
    HeadIsFirst(e);
    assert e[0] in e;
  }

  lemma PushedIn(p: Queue, t: Tx)
    requires QueueOk(p)
    ensures t in PushTx(p, t) && forall u :: u in p ==> u in PushTx(p, t)
  {
    hide PushTx, QueueOk;
    PushTxOk(p, t);
    assert t in multiset(PushTx(p, t));
    forall u | u in p ensures u in PushTx(p, t) {
      assert u in multiset(PushTx(p, t));
    }
  }

  lemma LastRunEnds(e: Queue, p: Queue)
    requires QueueOk(e) && AtLeast(e, MAX_UINT64) && e != []
    ensures PromoteRun(PopTx(e), p, 0) == Promotion(PopTx(e), p, 0, [], [])
  {
    hide PopTx, QueueOk;
    PopTxOk(e);
    var kept := PopTx(e);
    if kept != [] {
      assert kept[0] in multiset(kept);
      assert kept[0] in multiset(e);
    }
  }

  /** Promotion keeps the account well formed if and only if some nonce from the next one to
      the last one is missing from its enqueued transactions. */
  lemma PromoteKeepsOkIff(a: Account)
    requires AccountOk(a)
    ensures AccountOk(Promote(a).0) <==> Stops(a.enqueued, a.nextNonce)
  {
    hide PromoteRun, QueueOk;
    if Stops(a.enqueued, a.nextNonce) {
      PromoteKeepsOk(a);
    } else {
      assert Offers(a.enqueued, a.nextNonce);
      HeadIsFirst(a.enqueued);
      PromoteStart(a);
      PromoteRunWraps(a.enqueued, a.promoted, a.nextNonce);
      var t :| t in Promote(a).0.promoted && t.nonce == a.nextNonce;
      assert t in multiset(Promote(a).0.promoted);
    }
  }

  /** An account at the last nonce that offers it: the transaction is promoted and the next
      nonce stays. */
  lemma LastNonceBreaks(t: Tx, max: nat)
    requires t.nonce == MAX_UINT64 && max > 0
    ensures var a := Account([t], [], MAX_UINT64, 0, 0, max);
            && AccountOk(a) && !Stops(a.enqueued, a.nextNonce) && !AccountOk(Promote(a).0)
  {
    var a := Account([t], [], MAX_UINT64, 0, 0, max);
    assert t in a.enqueued;
    PromoteKeepsOkIff(a);
  }

  // ---------- The other operations ----------

  datatype EnqueueError = MaxEnqueuedLimitReached | NonceTooLow

  function Enqueue(a: Account, t: Tx): (Account, Option<EnqueueError>) {
    if |a.enqueued| == a.maxEnqueued then (a, Some(MaxEnqueuedLimitReached))
    else if t.nonce < a.nextNonce then (a, Some(NonceTooLow))
    else (a.(enqueued := PushTx(a.enqueued, t)), None)
  }

  lemma EnqueueKeepsOk(a: Account, t: Tx)
    requires AccountOk(a)
    ensures AccountOk(Enqueue(a, t).0)
    ensures Enqueue(a, t).1.None? ==> multiset(Enqueue(a, t).0.enqueued) == multiset(a.enqueued) + multiset{t}
  {
    PushTxOk(a.enqueued, t);
    hide GapFree, QueueOk;
    if Enqueue(a, t).1.None? {
      forall u | u in PushTx(a.enqueued, t) ensures u.nonce >= a.nextNonce {
        assert u in multiset(PushTx(a.enqueued, t));
      }
    }
  }

  /** Aligns the account with the nonce of the new state. */
  function Reset(a: Account, nonce: uint64): (Account, seq<Tx>, seq<Tx>) {
    var (promoted, prunedPromoted) := Prune(a.promoted, nonce);
    if nonce <= a.nextNonce then (a.(promoted := promoted), prunedPromoted, []) else
      var (enqueued, prunedEnqueued) := Prune(a.enqueued, nonce);
      (a.(promoted := promoted, enqueued := enqueued, nextNonce := nonce), prunedPromoted, prunedEnqueued)
  }

  lemma NothingAboveNext(q: Queue, nonce: int, next: int)
    requires AtLeast(q, nonce) && GapFree(multiset(q), next) && nonce > next
    ensures q == []
  {
    assert |multiset(q)| > 0 ==> HasNonce(multiset(q), next - 1);
  }

  lemma ResetKeepsOk(a: Account, nonce: uint64)
    requires AccountOk(a)
    ensures AccountOk(Reset(a, nonce).0)
  {
    PruneKeepsGapFree(a.promoted, nonce, a.nextNonce);
    PruneSplits(a.promoted, nonce);
    PruneSplits(a.enqueued, nonce);
    if nonce > a.nextNonce {
      NothingAboveNext(Prune(a.promoted, nonce).0, nonce, a.nextNonce);
    }
  }

  /** A reset leaves exactly the transactions the new state can still execute. */
  lemma ResetSplits(a: Account, nonce: uint64)
    requires AccountOk(a)
    ensures var (b, p, e) := Reset(a, nonce);
            && multiset(a.promoted) == multiset(b.promoted) + multiset(p)
            && multiset(a.enqueued) == multiset(b.enqueued) + multiset(e)
            && AtLeast(b.promoted, nonce) && AtLeast(b.enqueued, nonce) && b.nextNonce >= nonce
            && (forall t :: t in p || t in e ==> t.nonce < nonce)
  {
    PruneSplits(a.promoted, nonce);
    PruneSplits(a.enqueued, nonce);
  }
}
