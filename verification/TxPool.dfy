/** The transaction pool (txpool/txpool.go, txpool/slot_gauge.go, txpool/lookup_map.go): all
    accounts, the hash index, the slot gauge, the pending counter, and the requests that
    travel between its handlers. Handlers are atomic steps. */
module TxPool {
  import opened Wrappers
  import opened Words
  import opened TxAccount
  import Sums

  const TX_SLOT_SIZE := 32 * 1024
  const MAX_DEMOTIONS := 10
  const MAX_SKIPS := 10
  const HIGH_PRESSURE_MARK := 80

  /** `stateNonces` is the state of the chain as the pool reads it; `inFlight` are enqueue
      requests not yet handled. */
  datatype Pool = Pool(
    accounts: map<Address, Account>, index: map<Hash, Tx>, height: uint64, maxSlots: uint64, pending: int,
    inFlight: multiset<Tx>, maxEnqueued: nat, stateNonces: map<Address, uint64>)

  function StateNonce(p: Pool, a: Address): uint64 {
    if a in p.stateNonces then p.stateNonces[a] else 0
  }

  // ---------- Slots ----------

  function Slots(t: Tx): nat {
    (t.size + TX_SLOT_SIZE - 1) / TX_SLOT_SIZE
  }

  /** Slots of a collection, in whatever order it is summed. */
  ghost function SlotSum(m: multiset<Tx>): nat
    decreases |m|
  {
    if m == multiset{} then 0 else
      var t :| t in m;
      Slots(t) + SlotSum(m - multiset{t})
  }

  lemma {:induction false} SlotSumWithout(m: multiset<Tx>, t: Tx)
    requires t in m
    ensures SlotSum(m) == Slots(t) + SlotSum(m - multiset{t})
    decreases |m|
  {
    var u :| u in m && SlotSum(m) == Slots(u) + SlotSum(m - multiset{u});
    if u != t {
      SlotSumWithout(m - multiset{u}, t);
      SlotSumWithout(m - multiset{t}, u);
      assert m - multiset{u} - multiset{t} == m - multiset{t} - multiset{u};
    }
  }

  lemma {:induction false} SlotSumAdd(m: multiset<Tx>, n: multiset<Tx>)
    ensures SlotSum(m + n) == SlotSum(m) + SlotSum(n)
    decreases |n|
  {
    if n == multiset{} {
      assert m + n == m;
    } else {
      var t :| t in n;
      SlotSumWithout(n, t);
      SlotSumWithout(m + n, t);
      assert m + n - multiset{t} == m + (n - multiset{t});
      SlotSumAdd(m, n - multiset{t});
    }
  }

  lemma SlotSumOneMore(txs: seq<Tx>, i: nat)
    requires i < |txs|
    ensures SlotSum(multiset(txs[..i + 1])) == SlotSum(multiset(txs[..i])) + Slots(txs[i])
  {
    assert txs[..i + 1] == txs[..i] + [txs[i]];
    SlotSumAdd(multiset(txs[..i]), multiset{txs[i]});
    SlotSumOne(txs[i]);
  }

  lemma SlotSumNone()
    ensures SlotSum(multiset{}) == 0
  {
  }

  lemma SlotSumOne(t: Tx)
    ensures SlotSum(multiset{t}) == Slots(t)
  {
    SlotSumWithout(multiset{t}, t);
  }

  /** Slots of a list, as the pool counts them. */
  method SlotsRequired(txs: seq<Tx>) returns (slots: uint64)
    ensures slots == Wrap(SlotSum(multiset(txs)))
  {
    hide Slots, SlotSum;
    SlotSumNone();
    slots := 0;
    assert txs[..0] == [];
    for i := 0 to |txs|
      invariant slots == Wrap(SlotSum(multiset(txs[..i])))
    {
      SlotSumOneMore(txs, i);
      WrapOfWrap(SlotSum(multiset(txs[..i])), Slots(txs[i]));
      slots := Wrap(slots + Slots(txs[i]));
    }
    assert txs[..|txs|] == txs;
  }

  /** Subtraction as the gauge does it: adding the complement of `slots - 1`. */
  function Decrease(height: uint64, slots: uint64): uint64 {
    Wrap(height + (MAX_UINT64 - Wrap(slots - 1)))
  }

  lemma DecreaseSubtracts(height: uint64, slots: uint64)
    ensures Decrease(height, slots) == Wrap(height - slots)
  {
    if slots == 0 {
      assert Wrap(slots - 1) == MAX_UINT64;
    } else {
      assert Wrap(slots - 1) == slots - 1;
    }
  }

  // ---------- Handlers ----------

  /** Everything an account holds. */
  function All(a: Account): multiset<Tx> {
    multiset(a.enqueued) + multiset(a.promoted)
  }

  function Hashes(txs: seq<Tx>): set<Hash> {
    set t | t in txs :: t.hash
  }

  function Forget(index: map<Hash, Tx>, txs: seq<Tx>): map<Hash, Tx> {
    index - Hashes(txs)
  }

  ghost function Lowered(height: uint64, txs: seq<Tx>): uint64 {
    Decrease(height, Wrap(SlotSum(multiset(txs))))
  }

  datatype AddError = Invalid | NonceTooLow | RejectFutureTx | TxPoolOverflow | AlreadyKnown

  predicate HighPressure(p: Pool) {
    p.height > Wrap(HIGH_PRESSURE_MARK * p.maxSlots) / 100
  }

  function NewAccount(nonce: uint64, maxEnqueued: nat): Account {
    Account([], [], nonce, 0, 0, maxEnqueued)
  }

  /** A new transaction; `valid` stands for the checks on size, signature, price and funds. */
  function AddTx(p: Pool, t: Tx, valid: bool): (Pool, Option<AddError>) {
    if !valid then (p, Some(Invalid))
    else if StateNonce(p, t.from) > t.nonce then (p, Some(AddError.NonceTooLow))
    else if HighPressure(p) && t.from in p.accounts && t.nonce > p.accounts[t.from].nextNonce then
      (p, Some(RejectFutureTx))
    else if Wrap(p.height + Slots(t)) > p.maxSlots then (p, Some(TxPoolOverflow))
    else if t.hash in p.index then (p, Some(AlreadyKnown))
    else
      var q := if t.from in p.accounts then p else
                 p.(accounts := p.accounts[t.from := NewAccount(StateNonce(p, t.from), p.maxEnqueued)]);
      (q.(index := q.index[t.hash := t], inFlight := q.inFlight + multiset{t}), None)
  }

  function HandleEnqueue(p: Pool, t: Tx): Pool
    requires t.from in p.accounts
  {
    var (a, err) := TxAccount.Enqueue(p.accounts[t.from], t);
    var q := p.(inFlight := p.inFlight - multiset{t});
    if err.Some? then q.(index := Forget(p.index, [t]))
    else q.(accounts := p.accounts[t.from := a], height := Wrap(p.height + Slots(t)))
  }

  ghost function HandlePromote(p: Pool, x: Address): Pool
    requires x in p.accounts
  {
    var (a, moved, pruned) := TxAccount.Promote(p.accounts[x]);
    p.(accounts := p.accounts[x := a], index := Forget(p.index, pruned),
       height := Lowered(p.height, pruned), pending := p.pending + |moved|)
  }

  /** Pops the head of the promoted queue, whatever it is, and books `t` out. */
  ghost function Pop(p: Pool, t: Tx): Pool
    requires t.from in p.accounts
  {
    var a := p.accounts[t.from];
    var rest := if a.promoted == [] then [] else PopTx(a.promoted);
    p.(accounts := p.accounts[t.from := a.(promoted := rest, demotions := 0)],
       height := Lowered(p.height, [t]), pending := p.pending - 1)
  }

  ghost function Drop(p: Pool, t: Tx): Pool
    requires t.from in p.accounts
  {
    var a := p.accounts[t.from];
    p.(accounts := p.accounts[t.from := a.(promoted := [], enqueued := [], nextNonce := t.nonce)],
       index := Forget(Forget(p.index, a.promoted), a.enqueued),
       height := Lowered(Lowered(p.height, a.promoted), a.enqueued), pending := p.pending - |a.promoted|)
  }

  ghost function Demote(p: Pool, t: Tx): Pool
    requires t.from in p.accounts
  {
    var a := p.accounts[t.from];
    if a.demotions >= MAX_DEMOTIONS then
      var q := Drop(p, t);
      q.(accounts := q.accounts[t.from := q.accounts[t.from].(demotions := 0)])
    else
      p.(accounts := p.accounts[t.from := a.(demotions := a.demotions + 1)])
  }

  /** Clears the enqueued transactions of an account that cannot be promoted. */
  ghost function PruneHole(p: Pool, x: Address): Pool
    requires x in p.accounts
  {
    var a := p.accounts[x];
    if a.enqueued == [] || a.enqueued[0].nonce == a.nextNonce then p else
      p.(accounts := p.accounts[x := a.(enqueued := [])], index := Forget(p.index, a.enqueued),
         height := Lowered(p.height, a.enqueued))
  }

  ghost function PruneHoles(p: Pool, order: seq<Address>): (r: Pool)
    requires forall x :: x in order ==> x in p.accounts
    ensures r.accounts.Keys == p.accounts.Keys
  {
    if order == [] then p else PruneHole(PruneHoles(p, order[..|order| - 1]), order[|order| - 1])
  }

  function Lowest(a: Account): Option<Tx> {
    if a.promoted != [] then Some(a.promoted[0])
    else if a.enqueued != [] then Some(a.enqueued[0])
    else None
  }

  ghost function UpdateSkips(p: Pool, x: Address, active: bool): Pool
    requires x in p.accounts
    requires forall t :: t in All(p.accounts[x]) ==> t.from == x
  {
    var a := p.accounts[x];
    if active then p.(accounts := p.accounts[x := a.(skips := 0)])
    else if Lowest(a).None? then p
    else if a.skips + 1 < MAX_SKIPS then p.(accounts := p.accounts[x := a.(skips := a.skips + 1)])
    else
      assert Lowest(a).value in All(a);
      var q := Drop(p, Lowest(a).value);
      q.(accounts := q.accounts[x := q.accounts[x].(skips := 0)])
  }

  /** Aligns one account with the state and cleans up after it. */
  ghost function ResetOne(p: Pool, x: Address): Pool {
    if x !in p.accounts then p else
      var nonce := StateNonce(p, x);
      var (a, prunedPromoted, prunedEnqueued) := TxAccount.Reset(p.accounts[x], nonce);
      p.(accounts := p.accounts[x := a.(demotions := 0)],
         index := Forget(Forget(p.index, prunedPromoted), prunedEnqueued),
         height := Lowered(Lowered(p.height, prunedPromoted), prunedEnqueued),
         pending := p.pending - |prunedPromoted|)
  }

  ghost function ResetAll(p: Pool, order: seq<Address>): Pool {
    if order == [] then p else ResetOne(ResetAll(p, order[..|order| - 1]), order[|order| - 1])
  }

  /** A transaction of an abandoned branch, and what validating it came to. */
  datatype Returned = Returned(t: Tx, valid: bool)

  function AddAll(p: Pool, returned: seq<Returned>): Pool {
    if returned == [] then p else
      var last := returned[|returned| - 1];
      AddTx(AddAll(p, returned[..|returned| - 1]), last.t, last.valid).0
  }

  /** A block with the transactions `mined` is now part of the chain. Transactions of the
      branch it replaces are added again; then the senders of the mined ones are visited in
      any order. */
  ghost function ProcessEvent(p: Pool, mined: seq<Tx>, returned: seq<Returned>, order: seq<Address>): Pool {
    ResetAll(AddAll(p.(index := Forget(p.index, mined)), returned), order)
  }

  // ---------- The invariants ----------

  ghost function Weights(accounts: map<Address, Account>): map<Address, int> {
    map x | x in accounts :: WeightOf(accounts[x])
  }

  ghost function WeightOf(a: Account): int {
    SlotSum(All(a))
  }

  function Pendings(accounts: map<Address, Account>): map<Address, int> {
    map x | x in accounts :: |accounts[x].promoted|
  }

  /** The account is well formed and holds its owner's transactions. */
  ghost predicate HeldOk(p: Pool, x: Address)
    requires x in p.accounts
  {
    var a := p.accounts[x];
    AccountOk(a) && a.maxEnqueued == p.maxEnqueued && forall t :: t in All(a) ==> t.from == x
  }

  /** Every account is well formed, and every request finds its account. */
  ghost predicate AccountsInv(p: Pool) {
    && (forall x {:trigger HeldOk(p, x)} :: x in p.accounts ==> HeldOk(p, x))
    && (forall t :: t in p.inFlight ==> t.from in p.accounts)
  }

  predicate Indexed(p: Pool, t: Tx) {
    t.hash in p.index && p.index[t.hash] == t
  }

  /** Everything the account holds is in it once, and in the index. */
  ghost predicate ListedOk(p: Pool, x: Address)
    requires x in p.accounts
  {
    forall t :: t in All(p.accounts[x]) ==> All(p.accounts[x])[t] == 1 && Indexed(p, t)
  }

  /** The nonce at which an account's promoted run starts. */
  function Base(a: Account): int {
    a.nextNonce - |a.promoted|
  }

  /** A request whose transaction must not be queued: the index has lost it, or the request
      is there twice. */
  predicate Doubtful(p: Pool, t: Tx) {
    !Indexed(p, t) || p.inFlight[t] > 1
  }

  /** A doubtful request is going to be refused: its nonce is below its account's run. */
  ghost predicate InFlightOk(p: Pool, t: Tx) {
    t.from in p.accounts && (Doubtful(p, t) ==> t.nonce < Base(p.accounts[t.from]))
  }

  ghost predicate Separate(p: Pool) {
    && (forall t, u :: t in p.inFlight && u in p.inFlight && t.hash == u.hash ==> t == u)
    && (forall t, x, u :: t in p.inFlight && x in p.accounts && u in All(p.accounts[x]) ==> t.hash != u.hash)
  }

  /** The index knows all that is queued, and nothing is queued twice, now or later. */
  ghost predicate IndexInv(p: Pool) {
    && (forall x {:trigger ListedOk(p, x)} :: x in p.accounts ==> ListedOk(p, x))
    && (forall t {:trigger InFlightOk(p, t)} :: t in p.inFlight ==> InFlightOk(p, t))
    && Separate(p)
  }

  /** The gauge and the counter show what is queued. */
  ghost predicate Counted(p: Pool) {
    && p.height == Wrap(Sums.Sum(Weights(p.accounts)))
    && p.pending == Sums.Sum(Pendings(p.accounts))
  }

  ghost predicate PoolInv(p: Pool) {
    AccountsInv(p) && IndexInv(p) && Counted(p)
  }

  lemma HeldByOwner(p: Pool, x: Address)
    requires AccountsInv(p) && x in p.accounts
    ensures AccountOk(p.accounts[x]) && QueueOk(p.accounts[x].enqueued)
    ensures forall t :: t in All(p.accounts[x]) ==> t.from == x
    ensures Lowest(p.accounts[x]).Some? ==> Lowest(p.accounts[x]).value.from == x
  {
    assert HeldOk(p, x);
    var a := p.accounts[x];
    assert Lowest(a).Some? ==> Lowest(a).value in All(a);
  }

  // ---------- Shrinking one account ----------

  ghost predicate ForgetsOnly(index: map<Hash, Tx>, index': map<Hash, Tx>, gone: multiset<Tx>) {
    && (forall h :: h in index' ==> h in index && index'[h] == index[h])
    && (forall h :: h in index && h !in index' ==> exists t :: t in gone && t.hash == h)
  }

  /** `q` is `p` with the account of `x` turned into `b` and `gone` taken out of it. The index
      may forget hashes of `gone`, and only those. */
  ghost predicate Shrinks(p: Pool, q: Pool, x: Address, b: Account, gone: multiset<Tx>) {
    && x in p.accounts && q.accounts == p.accounts[x := b]
    && q.inFlight == p.inFlight && q.maxEnqueued == p.maxEnqueued
    && All(p.accounts[x]) == All(b) + gone
    && ForgetsOnly(p.index, q.index, gone)
    && AccountOk(b) && b.maxEnqueued == p.accounts[x].maxEnqueued
  }

  /** What is gone is booked out of the gauge and the counter. */
  ghost predicate Booked(p: Pool, q: Pool, x: Address, b: Account, gone: multiset<Tx>)
    requires x in p.accounts
  {
    && q.height == Wrap(p.height - SlotSum(gone))
    && q.pending == p.pending + |b.promoted| - |p.accounts[x].promoted|
  }

  /** Doubtful requests for `x` have nonces below `n`. */
  ghost predicate DoubtsBelow(p: Pool, x: Address, n: int) {
    forall u :: u in p.inFlight && u.from == x && Doubtful(p, u) ==> u.nonce < n
  }

  lemma KnownDoubts(p: Pool, x: Address, n: int)
    requires IndexInv(p) && x in p.accounts && Base(p.accounts[x]) <= n
    ensures DoubtsBelow(p, x, n)
  {
    hide ListedOk, Separate, Doubtful;
    forall u | u in p.inFlight && u.from == x && Doubtful(p, u) ensures u.nonce < n {
      assert InFlightOk(p, u);
    }
  }

  lemma ForgetsNothing(index: map<Hash, Tx>, gone: multiset<Tx>)
    ensures ForgetsOnly(index, index, gone)
  {
  }

  lemma HeldCarries(p: Pool, q: Pool, x: Address)
    requires x in p.accounts && HeldOk(p, x) && x in q.accounts && q.accounts[x] == p.accounts[x]
    requires q.maxEnqueued == p.maxEnqueued
    ensures HeldOk(q, x)
  {
  }

  lemma ShrinkKeepsAccounts(p: Pool, q: Pool, x: Address, b: Account, gone: multiset<Tx>)
    requires AccountsInv(p) && Shrinks(p, q, x, b, gone)
    ensures AccountsInv(q)
  {
    hide HeldOk, All, ForgetsOnly, AccountOk;
    assert HeldOk(p, x);
    forall y | y in q.accounts ensures HeldOk(q, y) {
      if y == x {
        ShrunkHeld(p, q, x, b, gone);
      } else {
        assert HeldOk(p, y);
        HeldCarries(p, q, y);
      }
    }
  }

  lemma ShrunkHeld(p: Pool, q: Pool, x: Address, b: Account, gone: multiset<Tx>)
    requires Shrinks(p, q, x, b, gone) && HeldOk(p, x)
    ensures HeldOk(q, x)
  {
    hide AccountOk;
    assert forall t :: t in All(b) ==> t in All(p.accounts[x]);
  }

  lemma WeightsUpdate(accounts: map<Address, Account>, x: Address, b: Account)
    requires x in accounts
    ensures Sums.Sum(Weights(accounts[x := b])) == Sums.Sum(Weights(accounts)) - WeightOf(accounts[x]) + WeightOf(b)
  {
    hide Sums.Sum, SlotSum;
    Sums.SumUpdate(Weights(accounts), x, WeightOf(b));
    assert Weights(accounts[x := b]) == Weights(accounts)[x := WeightOf(b)];
  }

  lemma PendingsUpdate(accounts: map<Address, Account>, x: Address, b: Account)
    requires x in accounts
    ensures Sums.Sum(Pendings(accounts[x := b])) ==
            Sums.Sum(Pendings(accounts)) - |accounts[x].promoted| + |b.promoted|
  {
    hide Sums.Sum;
    Sums.SumUpdate(Pendings(accounts), x, |b.promoted|);
    assert Pendings(accounts[x := b]) == Pendings(accounts)[x := |b.promoted|];
  }

  lemma ShrinkKeepsCounted(p: Pool, q: Pool, x: Address, b: Account, gone: multiset<Tx>)
    requires Counted(p) && Shrinks(p, q, x, b, gone) && Booked(p, q, x, b, gone)
    ensures Counted(q)
  {
    hide Sums.Sum, SlotSum, AccountOk, ForgetsOnly, Wrap;
    WeightsUpdate(p.accounts, x, b);
    PendingsUpdate(p.accounts, x, b);
    SlotSumAdd(All(b), gone);
    WrapOfWrap(Sums.Sum(Weights(p.accounts)), 0 - SlotSum(gone));
  }

  /** What remains queued anywhere keeps its place in the index. */
  lemma ShrinkKeepsListed(p: Pool, q: Pool, x: Address, b: Account, gone: multiset<Tx>, y: Address)
    requires AccountsInv(p) && IndexInv(p) && Shrinks(p, q, x, b, gone) && y in p.accounts
    ensures ListedOk(q, y)
  {
    hide AccountOk, Separate, InFlightOk;
    assert HeldOk(p, x) && HeldOk(p, y) && ListedOk(p, x) && ListedOk(p, y);
    forall t | t in All(q.accounts[y]) ensures All(q.accounts[y])[t] == 1 && Indexed(q, t) {
      assert t in All(p.accounts[y]);
      forall u | u in gone ensures u.hash != t.hash {
        assert u in All(p.accounts[x]);
      }
    }
  }

  lemma ShrinkKeepsFlight(p: Pool, q: Pool, x: Address, b: Account, gone: multiset<Tx>, t: Tx)
    requires t in p.inFlight && InFlightOk(p, t) && Separate(p) && Shrinks(p, q, x, b, gone)
    requires DoubtsBelow(p, x, Base(b))
    ensures InFlightOk(q, t)
  {
    hide AccountOk;
    forall u | u in gone ensures u.hash != t.hash {
      assert u in All(p.accounts[x]);
    }
  }

  lemma ShrinkKeepsSeparate(p: Pool, q: Pool, x: Address, b: Account, gone: multiset<Tx>)
    requires Separate(p) && Shrinks(p, q, x, b, gone)
    ensures Separate(q)
  {
    hide AccountOk, ForgetsOnly;
    forall t, y, u | t in q.inFlight && y in q.accounts && u in All(q.accounts[y]) ensures t.hash != u.hash {
      assert u in All(p.accounts[y]);
    }
  }

  lemma ShrinkKeepsIndex(p: Pool, q: Pool, x: Address, b: Account, gone: multiset<Tx>)
    requires AccountsInv(p) && IndexInv(p) && Shrinks(p, q, x, b, gone) && DoubtsBelow(p, x, Base(b))
    ensures IndexInv(q)
  {
    hide AccountsInv, ListedOk, InFlightOk, Separate, ForgetsOnly, DoubtsBelow, AccountOk;
    forall y | y in q.accounts ensures ListedOk(q, y) {
      ShrinkKeepsListed(p, q, x, b, gone, y);
    }
    forall t | t in q.inFlight ensures InFlightOk(q, t) {
      assert InFlightOk(p, t);
      ShrinkKeepsFlight(p, q, x, b, gone, t);
    }
    ShrinkKeepsSeparate(p, q, x, b, gone);
  }

  // ---------- Carrying over what did not change ----------

  lemma ListedCarries(p: Pool, q: Pool, x: Address)
    requires x in p.accounts && ListedOk(p, x) && x in q.accounts && q.accounts[x] == p.accounts[x]
    requires forall t :: t in All(p.accounts[x]) && Indexed(p, t) ==> Indexed(q, t)
    ensures ListedOk(q, x)
  {
  }

  lemma FlightCarries(p: Pool, q: Pool, t: Tx)
    requires InFlightOk(p, t) && t.from in q.accounts && Base(p.accounts[t.from]) <= Base(q.accounts[t.from])
    requires Doubtful(q, t) ==> Doubtful(p, t)
    ensures InFlightOk(q, t)
  {
  }

  lemma AccountsSame(p: Pool, q: Pool)
    requires AccountsInv(p) && q.accounts == p.accounts && q.maxEnqueued == p.maxEnqueued
    requires forall t :: t in q.inFlight ==> t.from in q.accounts
    ensures AccountsInv(q)
  {
    hide HeldOk;
    forall x | x in q.accounts ensures HeldOk(q, x) {
      assert HeldOk(p, x);
      HeldCarries(p, q, x);
    }
  }

  lemma IndexSame(p: Pool, q: Pool)
    requires IndexInv(p) && q.accounts == p.accounts && q.inFlight == p.inFlight && q.index == p.index
    ensures IndexInv(q)
  {
    hide ListedOk, InFlightOk, All;
    forall x | x in q.accounts ensures ListedOk(q, x) {
      assert ListedOk(p, x);
      ListedCarries(p, q, x);
    }
    forall t | t in q.inFlight ensures InFlightOk(q, t) {
      assert InFlightOk(p, t);
      InFlightAccount(p, t);
      FlightCarries(p, q, t);
    }
  }

  lemma InFlightAccount(p: Pool, t: Tx)
    requires InFlightOk(p, t)
    ensures t.from in p.accounts
  {
  }

  lemma CountedSame(p: Pool, q: Pool)
    requires q.accounts == p.accounts && q.height == p.height && q.pending == p.pending
    ensures Counted(p) ==> Counted(q)
  {
  }

  lemma LoweredBy(height: uint64, txs: seq<Tx>)
    ensures Lowered(height, txs) == Wrap(height - SlotSum(multiset(txs)))
  {
    hide SlotSum, Decrease;
    var s := SlotSum(multiset(txs));
    DecreaseSubtracts(height, Wrap(s));
    WrapOfWrap(s, 0 - height);
    WrapNegated(height, s);
  }

  lemma WrapNegated(h: int, s: nat)
    ensures Wrap(h - Wrap(s)) == Wrap(h - s)
  {
    var k := s / TWO_64;
    assert Wrap(s) == s - TWO_64 * k;
    WrapMultiple(h - s, k);
  }

  lemma {:induction false} WrapMultiple(x: int, k: nat)
    ensures Wrap(x + TWO_64 * k) == Wrap(x)
  {
    if k > 0 {
      WrapMultiple(x, k - 1);
      assert Wrap(x + TWO_64 * (k - 1) + TWO_64) == Wrap(x + TWO_64 * (k - 1));
    }
  }

  lemma LoweredTwice(height: uint64, a: seq<Tx>, b: seq<Tx>)
    ensures Lowered(Lowered(height, a), b) == Wrap(height - SlotSum(multiset(a) + multiset(b)))
  {
    hide SlotSum, Decrease, Lowered;
    LoweredBy(height, a);
    LoweredBy(Lowered(height, a), b);
    SlotSumAdd(multiset(a), multiset(b));
    WrapOfWrap(height - SlotSum(multiset(a)), 0 - SlotSum(multiset(b)));
  }

  lemma ForgetIsLimited(index: map<Hash, Tx>, txs: seq<Tx>, gone: multiset<Tx>)
    requires forall t :: t in txs ==> t in gone
    ensures ForgetsOnly(index, Forget(index, txs), gone)
  {
  }

  lemma ForgetTwiceIsLimited(index: map<Hash, Tx>, a: seq<Tx>, b: seq<Tx>)
    ensures ForgetsOnly(index, Forget(Forget(index, a), b), multiset(a) + multiset(b))
  {
    var gone := multiset(a) + multiset(b);
    forall h | h in index && h !in Forget(Forget(index, a), b) ensures exists t :: t in gone && t.hash == h {
      if h in Hashes(a) {
        var t :| t in a && t.hash == h;
        assert t in gone;
      } else {
        var t :| t in b && t.hash == h;
        assert t in gone;
      }
    }
  }

  // ---------- Promotion ----------

  lemma PromoteShrinks(p: Pool, x: Address) returns (b: Account, gone: multiset<Tx>)
    requires AccountsInv(p) && x in p.accounts && Stops(p.accounts[x].enqueued, p.accounts[x].nextNonce)
    ensures Shrinks(p, HandlePromote(p, x), x, b, gone) && Booked(p, HandlePromote(p, x), x, b, gone)
    ensures Base(b) == Base(p.accounts[x])
  {
    hide SlotSum, Lowered, BestRun, GapFree, TxAccount.Promote, Forget, ForgetsOnly, Stops, AccountOk;
    var a := p.accounts[x];
    HeldByOwner(p, x);
    PromoteKeepsOk(a);
    PromoteMovesBestRun(a);
    PromoteKeepsLimit(a);
    var (promoted, moved, pruned) := TxAccount.Promote(a);
    b, gone := promoted, multiset(pruned);
    assert All(a) == All(b) + gone;
    assert |multiset(b.promoted)| == |multiset(a.promoted)| + |multiset(moved)|;
    LoweredBy(p.height, pruned);
    ForgetIsLimited(p.index, pruned, gone);
  }

  lemma PromoteKeepsLimit(a: Account)
    ensures TxAccount.Promote(a).0.maxEnqueued == a.maxEnqueued
  {
  }

  /** Promoting keeps the accounts well formed if and only if the account misses a nonce. */
  lemma PromoteKeepsAccountsIff(p: Pool, x: Address)
    requires AccountsInv(p) && x in p.accounts
    ensures AccountsInv(HandlePromote(p, x)) <==> Stops(p.accounts[x].enqueued, p.accounts[x].nextNonce)
  {
    hide SlotSum, Lowered, TxAccount.Promote, Forget, Stops, AccountOk;
    HeldByOwner(p, x);
    PromoteKeepsOkIff(p.accounts[x]);
    if Stops(p.accounts[x].enqueued, p.accounts[x].nextNonce) {
      var b, gone := PromoteShrinks(p, x);
      ShrinkKeepsAccounts(p, HandlePromote(p, x), x, b, gone);
    } else {
      assert !HeldOk(HandlePromote(p, x), x);
    }
  }

  lemma PromoteKeepsInv(p: Pool, x: Address)
    requires AccountsInv(p) && x in p.accounts && Stops(p.accounts[x].enqueued, p.accounts[x].nextNonce)
    ensures AccountsInv(HandlePromote(p, x))
    ensures IndexInv(p) ==> IndexInv(HandlePromote(p, x))
    ensures Counted(p) ==> Counted(HandlePromote(p, x))
  {
    hide AccountsInv, IndexInv, Counted, HandlePromote, Shrinks, Booked, Stops;
    var b, gone := PromoteShrinks(p, x);
    ShrinkKeepsAll(p, HandlePromote(p, x), x, b, gone);
  }

  /** A step that shrinks an account, books it, and does not move its run down. */
  lemma ShrinkKeepsAll(p: Pool, q: Pool, x: Address, b: Account, gone: multiset<Tx>)
    requires AccountsInv(p) && x in p.accounts && Shrinks(p, q, x, b, gone) && Booked(p, q, x, b, gone)
    requires Base(p.accounts[x]) <= Base(b)
    ensures AccountsInv(q)
    ensures IndexInv(p) ==> IndexInv(q)
    ensures Counted(p) ==> Counted(q)
  {
    hide AccountsInv, IndexInv, Counted, Shrinks, Booked;
    ShrinkKeepsAccounts(p, q, x, b, gone);
    if IndexInv(p) {
      KnownDoubts(p, x, Base(b));
      ShrinkKeepsIndex(p, q, x, b, gone);
    }
    if Counted(p) {
      ShrinkKeepsCounted(p, q, x, b, gone);
    }
  }

  // ---------- Pop ----------

  /** Whatever transaction is named, the head of the promoted queue leaves. */
  lemma PopShrinks(p: Pool, t: Tx) returns (b: Account, gone: multiset<Tx>)
    requires AccountsInv(p) && t.from in p.accounts
    ensures Shrinks(p, Pop(p, t), t.from, b, gone) && Base(p.accounts[t.from]) <= Base(b)
    ensures p.accounts[t.from].promoted != [] ==> gone == multiset{p.accounts[t.from].promoted[0]}
    ensures b.promoted == if p.accounts[t.from].promoted == [] then [] else PopTx(p.accounts[t.from].promoted)
  {
    hide Lowered, PopTx, AccountOk, All, AccountsInv, ForgetsOnly, QueueOk;
    var a := p.accounts[t.from];
    HeldByOwner(p, t.from);
    ForgetsNothing(p.index, HeadOf(a));
    b, gone := a.(promoted := if a.promoted == [] then [] else PopTx(a.promoted), demotions := 0), HeadOf(a);
    PoppedAccount(a);
  }

  function HeadOf(a: Account): multiset<Tx> {
    if a.promoted == [] then multiset{} else multiset{a.promoted[0]}
  }

  lemma PoppedAccount(a: Account)
    requires AccountOk(a)
    ensures var b := a.(promoted := if a.promoted == [] then [] else PopTx(a.promoted), demotions := 0);
            AccountOk(b) && All(a) == All(b) + HeadOf(a) && Base(a) <= Base(b)
  {
    hide PopTx, GapFree;
    if a.promoted != [] {
      GapFreePop(a.promoted, a.nextNonce);
      PopTxOk(a.promoted);
    }
  }

  lemma PopKeepsInv(p: Pool, t: Tx)
    requires AccountsInv(p) && t.from in p.accounts
    ensures AccountsInv(Pop(p, t))
    ensures IndexInv(p) ==> IndexInv(Pop(p, t))
  {
    hide AccountsInv, IndexInv, Pop, Shrinks;
    var b, gone := PopShrinks(p, t);
    ShrinkKeepsAccounts(p, Pop(p, t), t.from, b, gone);
    if IndexInv(p) {
      KnownDoubts(p, t.from, Base(b));
      ShrinkKeepsIndex(p, Pop(p, t), t.from, b, gone);
    }
  }

  lemma WrapSame(x: int, y: int, d: int)
    ensures Wrap(x + d) == Wrap(y + d) <==> Wrap(x) == Wrap(y)
  {
    WrapOfWrap(x, d);
    WrapOfWrap(y, d);
    WrapOfWrap(x + d, 0 - d);
    WrapOfWrap(y + d, 0 - d);
  }

  /** Popping for any transaction: the books stay right if and only if there is a head and it
      takes as many slots as the transaction booked out. */
  lemma PopCountsIff(p: Pool, t: Tx)
    requires AccountsInv(p) && Counted(p) && t.from in p.accounts
    ensures var q := p.accounts[t.from].promoted;
            Counted(Pop(p, t)) <==> q != [] && Wrap(Slots(t)) == Wrap(Slots(q[0]))
  {
    hide SlotSum, GapFree, PopTx, Sums.Sum, Slots, Lowered, AtLeast, Wrap, WeightOf;
    var x, a := t.from, p.accounts[t.from];
    HeldByOwner(p, x);
    var b := a.(promoted := if a.promoted == [] then [] else PopTx(a.promoted), demotions := 0);
    WeightsUpdate(p.accounts, x, b);
    PendingsUpdate(p.accounts, x, b);
    LoweredBy(p.height, [t]);
    assert multiset([t]) == multiset{t};
    SlotSumOne(t);
    if a.promoted != [] {
      var h := a.promoted[0];
      PopWeight(a, b);
      var w := Sums.Sum(Weights(p.accounts));
      WrapOfWrap(w, 0 - Slots(t));
      PopWraps(w, Slots(t), Slots(h));
    }
  }

  lemma PopWeight(a: Account, b: Account)
    requires a.promoted != [] && QueueOk(a.promoted) && b == a.(promoted := PopTx(a.promoted), demotions := 0)
    ensures WeightOf(a) == WeightOf(b) + Slots(a.promoted[0]) && |b.promoted| == |a.promoted| - 1
  {
    hide SlotSum, Slots;
    PopTxOk(a.promoted);
    var h := a.promoted[0];
    assert All(a) == All(b) + multiset{h};
    SlotSumAdd(All(b), multiset{h});
    SlotSumOne(h);
  }

  lemma PopWraps(w: int, s: nat, h: nat)
    ensures Wrap(w - s) == Wrap(w - h) <==> Wrap(s) == Wrap(h)
  {
    hide Wrap;
    WrapSame(w - s, w - h, s + h - w);
  }

  // ---------- Drop and demote ----------

  lemma EmptyOk(a: Account, nonce: uint64)
    requires AccountOk(a)
    ensures AccountOk(a.(promoted := [], enqueued := [], nextNonce := nonce))
  {
  }

  function Emptied(a: Account, nonce: uint64): Account {
    a.(promoted := [], enqueued := [], nextNonce := nonce)
  }

  lemma DropShrinks(p: Pool, t: Tx)
    requires AccountsInv(p) && t.from in p.accounts
    ensures var a, b := p.accounts[t.from], Emptied(p.accounts[t.from], t.nonce);
            Shrinks(p, Drop(p, t), t.from, b, All(a)) && Booked(p, Drop(p, t), t.from, b, All(a))
  {
    hide SlotSum, Lowered, GapFree, Forget, ForgetsOnly;
    var a := p.accounts[t.from];
    HeldByOwner(p, t.from);
    EmptyOk(a, t.nonce);
    assert All(a) == multiset(a.promoted) + multiset(a.enqueued);
    assert All(Emptied(a, t.nonce)) == multiset{};
    LoweredTwice(p.height, a.promoted, a.enqueued);
    ForgetTwiceIsLimited(p.index, a.promoted, a.enqueued);
  }

  /** Dropping an account for any transaction keeps accounts, gauge and counter right. */
  lemma DropKeepsInv(p: Pool, t: Tx)
    requires AccountsInv(p) && t.from in p.accounts
    ensures AccountsInv(Drop(p, t))
    ensures Counted(p) ==> Counted(Drop(p, t))
  {
    hide AccountsInv, Counted, Drop, Shrinks, Booked;
    DropShrinks(p, t);
    var a, b := p.accounts[t.from], Emptied(p.accounts[t.from], t.nonce);
    ShrinkKeepsAccounts(p, Drop(p, t), t.from, b, All(a));
    if Counted(p) {
      ShrinkKeepsCounted(p, Drop(p, t), t.from, b, All(a));
    }
  }

  /** It keeps the index right if and only if no doubtful request of the sender carries the
      transaction's nonce or a later one: those the reverted next nonce lets in. */
  lemma DropKeepsIndexIff(p: Pool, t: Tx)
    requires AccountsInv(p) && IndexInv(p) && t.from in p.accounts
    ensures IndexInv(Drop(p, t)) <==> DoubtsBelow(p, t.from, t.nonce)
  {
    hide AccountsInv, ListedOk, Separate, Lowered, Forget, Shrinks, Booked;
    DropShrinks(p, t);
    var q, b := Drop(p, t), Emptied(p.accounts[t.from], t.nonce);
    if DoubtsBelow(p, t.from, t.nonce) {
      ShrinkKeepsIndex(p, q, t.from, b, All(p.accounts[t.from]));
    }
    if IndexInv(q) {
      forall u | u in p.inFlight && u.from == t.from && Doubtful(p, u) ensures u.nonce < t.nonce {
        assert InFlightOk(q, u);
        StillDoubtful(p, q, u, b);
      }
    }
  }

  lemma StillDoubtful(p: Pool, q: Pool, u: Tx, b: Account)
    requires u.from in p.accounts && Shrinks(p, q, u.from, b, All(p.accounts[u.from])) && Doubtful(p, u)
    ensures Doubtful(q, u)
  {
  }

  /** The lowest transaction of an account is always safe to drop for. */
  lemma LowestIsSafe(p: Pool, t: Tx)
    requires AccountsInv(p) && IndexInv(p) && t.from in p.accounts && Lowest(p.accounts[t.from]) == Some(t)
    ensures DoubtsBelow(p, t.from, t.nonce)
  {
    hide IndexInv, DoubtsBelow;
    var a := p.accounts[t.from];
    HeldByOwner(p, t.from);
    if a.promoted != [] {
      GapFreePop(a.promoted, a.nextNonce);
    } else {
      assert t in a.enqueued;
    }
    KnownDoubts(p, t.from, t.nonce);
  }

  lemma CountersOk(a: Account, b: Account)
    requires AccountOk(a) && b == a.(demotions := b.demotions, skips := b.skips)
    ensures AccountOk(b)
  {
  }

  /** Counters of an account do not matter to the pool. */
  lemma CountersKeepInv(p: Pool, x: Address, b: Account)
    requires x in p.accounts && b == p.accounts[x].(demotions := b.demotions, skips := b.skips)
    ensures AccountsInv(p) ==> AccountsInv(p.(accounts := p.accounts[x := b]))
    ensures AccountsInv(p) && IndexInv(p) ==> IndexInv(p.(accounts := p.accounts[x := b]))
    ensures Counted(p) ==> Counted(p.(accounts := p.accounts[x := b]))
  {
    hide IndexInv, AccountsInv, Sums.Sum, Wrap, Weights, Pendings, ForgetsOnly, AccountOk, All, SlotSum;
    var q := p.(accounts := p.accounts[x := b]);
    SameQueues(p.accounts[x], b);
    ForgetsNothing(p.index, multiset{});
    if AccountsInv(p) {
      HeldByOwner(p, x);
      CountersOk(p.accounts[x], b);
      ShrinkKeepsAccounts(p, q, x, b, multiset{});
      if IndexInv(p) {
        KnownDoubts(p, x, Base(b));
        ShrinkKeepsIndex(p, q, x, b, multiset{});
      }
    }
    WeightsUpdate(p.accounts, x, b);
    PendingsUpdate(p.accounts, x, b);
    assert WeightOf(b) == WeightOf(p.accounts[x]);
  }

  /** Demoting drops only at the limit. */
  ghost predicate SafeDemotion(p: Pool, t: Tx)
    requires t.from in p.accounts
  {
    p.accounts[t.from].demotions >= MAX_DEMOTIONS ==> DoubtsBelow(p, t.from, t.nonce)
  }

  lemma DemoteKeepsInv(p: Pool, t: Tx)
    requires AccountsInv(p) && t.from in p.accounts
    ensures AccountsInv(Demote(p, t))
    ensures IndexInv(p) && SafeDemotion(p, t) ==> IndexInv(Demote(p, t))
    ensures Counted(p) ==> Counted(Demote(p, t))
  {
    hide AccountsInv, IndexInv, Counted, Lowered, Forget;
    var a := p.accounts[t.from];
    if a.demotions >= MAX_DEMOTIONS {
      DropKeepsInv(p, t);
      if IndexInv(p) {
        DropKeepsIndexIff(p, t);
      }
      CountersKeepInv(Drop(p, t), t.from, Drop(p, t).accounts[t.from].(demotions := 0));
    } else {
      CountersKeepInv(p, t.from, a.(demotions := a.demotions + 1));
    }
  }

  // ---------- Skips and holes ----------

  lemma SkipsKeepInv(p: Pool, x: Address, active: bool)
    requires AccountsInv(p) && x in p.accounts
    ensures forall t :: t in All(p.accounts[x]) ==> t.from == x
    ensures AccountsInv(UpdateSkips(p, x, active))
    ensures IndexInv(p) ==> IndexInv(UpdateSkips(p, x, active))
    ensures Counted(p) ==> Counted(UpdateSkips(p, x, active))
  {
    hide AccountsInv, IndexInv, Counted, Drop, AccountOk, All, QueueOk;
    HeldByOwner(p, x);
    var a := p.accounts[x];
    if active {
      CountersKeepInv(p, x, a.(skips := 0));
    } else if Lowest(a).Some? {
      if a.skips + 1 < MAX_SKIPS {
        CountersKeepInv(p, x, a.(skips := a.skips + 1));
      } else {
        SkippedDrop(p, x);
      }
    }
  }

  lemma SkippedDrop(p: Pool, x: Address)
    requires AccountsInv(p) && x in p.accounts && Lowest(p.accounts[x]).Some? && Lowest(p.accounts[x]).value.from == x
    ensures var q := Drop(p, Lowest(p.accounts[x]).value);
            && x in q.accounts
            && var r := q.(accounts := q.accounts[x := q.accounts[x].(skips := 0)]);
               && AccountsInv(r) && (IndexInv(p) ==> IndexInv(r)) && (Counted(p) ==> Counted(r))
  {
    hide AccountsInv, IndexInv, Counted, Lowered, Forget;
    var t := Lowest(p.accounts[x]).value;
    DropKeepsInv(p, t);
    if IndexInv(p) {
      LowestIsSafe(p, t);
      DropKeepsIndexIff(p, t);
    }
    CountersKeepInv(Drop(p, t), x, Drop(p, t).accounts[x].(skips := 0));
  }

  /** The skips of all accounts after a block with transactions of the `active` ones. */
  ghost function UpdateAllSkips(p: Pool, order: seq<Address>, active: set<Address>): (r: Pool)
    requires AccountsInv(p)
    ensures AccountsInv(r)
  {
    hide AccountsInv, Lowered, Forget;
    if order == [] then p else
      var q, x := UpdateAllSkips(p, order[..|order| - 1], active), order[|order| - 1];
      if x !in q.accounts then q else
        SkipsKeepInv(q, x, x in active);
        UpdateSkips(q, x, x in active)
  }

  lemma PruneHoleKeepsInv(p: Pool, x: Address)
    requires AccountsInv(p) && x in p.accounts
    ensures AccountsInv(PruneHole(p, x))
    ensures IndexInv(p) ==> IndexInv(PruneHole(p, x))
    ensures Counted(p) ==> Counted(PruneHole(p, x))
  {
    hide SlotSum, Lowered, GapFree, Forget, ForgetsOnly, IndexInv, Counted;
    var a := p.accounts[x];
    if PruneHole(p, x) != p {
      HeldByOwner(p, x);
      var b, gone := a.(enqueued := []), multiset(a.enqueued);
      assert AccountOk(b);
      assert All(a) == All(b) + gone;
      LoweredBy(p.height, a.enqueued);
      ForgetIsLimited(p.index, a.enqueued, gone);
      ShrinkKeepsAll(p, PruneHole(p, x), x, b, gone);
    }
  }

  // ---------- Resets ----------

  /** A reset moves the run to the new nonce or leaves it above. */
  lemma ResetBase(a: Account, nonce: uint64)
    requires AccountOk(a)
    ensures var b := TxAccount.Reset(a, nonce).0;
            && AccountOk(b) && b.maxEnqueued == a.maxEnqueued
            && Base(a) <= Base(b) && nonce <= Base(b) && AtLeast(b.promoted, nonce) && AtLeast(b.enqueued, nonce)
  {
    hide GapFree, QueueOk;
    ResetKeepsOk(a, nonce);
    ResetSplits(a, nonce);
    var b := TxAccount.Reset(a, nonce).0;
    if b.promoted != [] {
      GapFreePop(b.promoted, b.nextNonce);
      assert b.promoted[0] in multiset(b.promoted);
      assert b.promoted[0] in multiset(a.promoted);
      RunStartsAtBase(a.promoted, a.nextNonce, b.promoted[0]);
      assert b.promoted[0] in b.promoted;
    }
  }

  lemma RunStartsAtBase(q: Queue, next: int, t: Tx)
    requires GapFree(multiset(q), next) && t in multiset(q)
    ensures next - |q| <= t.nonce
  {
  }

  lemma SameQueues(a: Account, b: Account)
    requires a.enqueued == b.enqueued && a.promoted == b.promoted
    ensures All(a) == All(b)
  {
  }

  lemma ResetCounts(a: Account, nonce: uint64)
    requires AccountOk(a)
    ensures var (b, p, e) := TxAccount.Reset(a, nonce);
            All(a) == All(b) + (multiset(p) + multiset(e)) && |a.promoted| == |b.promoted| + |p|
  {
    hide TxAccount.Reset;
    ResetSplits(a, nonce);
    var (b, p, e) := TxAccount.Reset(a, nonce);
    assert |multiset(a.promoted)| == |multiset(b.promoted)| + |multiset(p)|;
  }

  lemma ResetShrinks(p: Pool, x: Address) returns (b: Account, gone: multiset<Tx>)
    requires AccountsInv(p) && x in p.accounts
    ensures Shrinks(p, ResetOne(p, x), x, b, gone) && Booked(p, ResetOne(p, x), x, b, gone)
    ensures Base(p.accounts[x]) <= Base(b)
  {
    hide SlotSum, Lowered, GapFree, Forget, ForgetsOnly, TxAccount.Reset, AccountsInv, QueueOk, AtLeast, All;
    var a, nonce := p.accounts[x], StateNonce(p, x);
    HeldByOwner(p, x);
    ResetBase(a, nonce);
    ResetCounts(a, nonce);
    var (c, pp, pe) := TxAccount.Reset(a, nonce);
    b, gone := c.(demotions := 0), multiset(pp) + multiset(pe);
    assert All(b) == All(c) by { SameQueues(b, c); }
    LoweredTwice(p.height, pp, pe);
    ForgetTwiceIsLimited(p.index, pp, pe);
  }

  lemma ResetOneKeepsInv(p: Pool, x: Address)
    requires AccountsInv(p)
    ensures AccountsInv(ResetOne(p, x))
    ensures IndexInv(p) ==> IndexInv(ResetOne(p, x))
    ensures Counted(p) ==> Counted(ResetOne(p, x))
  {
    hide AccountsInv, IndexInv, Counted, Shrinks, Booked;
    if x in p.accounts {
      var b, gone := ResetShrinks(p, x);
      ShrinkKeepsAll(p, ResetOne(p, x), x, b, gone);
    }
  }

  // ---------- Cleaning up once for all accounts ----------

  /** The pool once the collected transactions are cleaned up. */
  ghost function CleanedUp(p: Pool, prunedPromoted: seq<Tx>, prunedEnqueued: seq<Tx>): Pool {
    p.(index := Forget(Forget(p.index, prunedPromoted), prunedEnqueued),
       height := Lowered(Lowered(p.height, prunedPromoted), prunedEnqueued),
       pending := p.pending - |prunedPromoted|)
  }

  /** The pool with the account aligned, and nothing cleaned up yet. */
  ghost function Realigned(p: Pool, x: Address): Pool
    requires x in p.accounts
  {
    p.(accounts := p.accounts[x := TxAccount.Reset(p.accounts[x], StateNonce(p, x)).0.(demotions := 0)])
  }

  lemma ForgetConcat(index: map<Hash, Tx>, a: seq<Tx>, b: seq<Tx>, c: seq<Tx>, d: seq<Tx>)
    ensures Forget(Forget(Forget(Forget(index, a), b), c), d) == Forget(Forget(index, a + c), b + d)
  {
    assert Hashes(a + c) == Hashes(a) + Hashes(c);
    assert Hashes(b + d) == Hashes(b) + Hashes(d);
  }

  lemma LoweredConcat(height: uint64, a: seq<Tx>, b: seq<Tx>, c: seq<Tx>, d: seq<Tx>)
    ensures Lowered(Lowered(Lowered(Lowered(height, a), b), c), d) == Lowered(Lowered(height, a + c), b + d)
  {
    hide SlotSum, Lowered, Wrap;
    var s: int := SlotSum(multiset(a) + multiset(b));
    var r: int := SlotSum(multiset(c) + multiset(d));
    LoweredTwice(height, a, b);
    LoweredTwice(Lowered(Lowered(height, a), b), c, d);
    LoweredTwice(height, a + c, b + d);
    SlotSumAdd(multiset(a) + multiset(b), multiset(c) + multiset(d));
    assert multiset(a + c) + multiset(b + d) == (multiset(a) + multiset(b)) + (multiset(c) + multiset(d));
    WrapOfWrap(height - s, 0 - r);
  }

  lemma CleanUpLater(p: Pool, x: Address, prunedPromoted: seq<Tx>, prunedEnqueued: seq<Tx>)
    requires x in p.accounts
    ensures var (a, pp, pe) := TxAccount.Reset(p.accounts[x], StateNonce(p, x));
            CleanedUp(Realigned(p, x), prunedPromoted + pp, prunedEnqueued + pe) ==
            ResetOne(CleanedUp(p, prunedPromoted, prunedEnqueued), x)
  {
    hide Lowered, Forget, TxAccount.Reset;
    var (a, pp, pe) := TxAccount.Reset(p.accounts[x], StateNonce(p, x));
    ForgetConcat(p.index, prunedPromoted, prunedEnqueued, pp, pe);
    LoweredConcat(p.height, prunedPromoted, prunedEnqueued, pp, pe);
  }

  lemma NoAccountNoReset(p: Pool, x: Address, prunedPromoted: seq<Tx>, prunedEnqueued: seq<Tx>)
    requires x !in p.accounts
    ensures ResetOne(CleanedUp(p, prunedPromoted, prunedEnqueued), x) == CleanedUp(p, prunedPromoted, prunedEnqueued)
  {
  }

  lemma CleanUpNone(index: map<Hash, Tx>, height: uint64)
    ensures Forget(index, []) == index && Lowered(height, []) == height
  {
    hide SlotSum, Lowered, Wrap;
    LoweredBy(height, []);
    SlotSumNone();
    WrapFits(height);
  }

  lemma NothingToCleanUp(p: Pool)
    ensures CleanedUp(p, [], []) == p
  {
    hide Lowered, Forget;
    CleanUpNone(p.index, p.height);
  }

  lemma WrapFits(x: uint64)
    ensures Wrap(x) == x
  {
  }

  // ---------- A new block ----------

  /** What resetting accounts leaves alone, and what it forgets. */
  ghost predicate Follows(p: Pool, q: Pool) {
    && q.accounts.Keys == p.accounts.Keys && q.inFlight == p.inFlight && q.stateNonces == p.stateNonces
    && (forall h :: h in q.index ==> h in p.index && q.index[h] == p.index[h])
  }

  lemma ResetOneFollows(p: Pool, x: Address)
    ensures Follows(p, ResetOne(p, x))
    ensures forall y :: y in p.accounts && y != x ==> ResetOne(p, x).accounts[y] == p.accounts[y]
  {
    hide Lowered, TxAccount.Reset;
  }

  /** The account holds nothing the state has passed, and none is to come. */
  ghost predicate AlignedAt(p: Pool, x: Address)
    requires x in p.accounts
  {
    var a, n := p.accounts[x], StateNonce(p, x);
    n <= Base(a) && AtLeast(a.promoted, n) && AtLeast(a.enqueued, n)
  }

  ghost predicate Aligned(p: Pool, order: seq<Address>) {
    forall x {:trigger AlignedAt(p, x)} :: x in order && x in p.accounts ==> AlignedAt(p, x)
  }

  lemma ResetAligns(p: Pool, x: Address)
    requires AccountsInv(p) && x in p.accounts
    ensures AlignedAt(ResetOne(p, x), x)
  {
    hide Lowered, Forget, TxAccount.Reset;
    HeldByOwner(p, x);
    ResetBase(p.accounts[x], StateNonce(p, x));
  }

  lemma AlignedOneMore(p: Pool, order: seq<Address>, x: Address)
    requires AccountsInv(p) && Aligned(p, order)
    ensures Aligned(ResetOne(p, x), order + [x])
  {
    hide ResetOne, AccountsInv;
    ResetOneFollows(p, x);
    var q := ResetOne(p, x);
    forall y | y in order + [x] && y in q.accounts ensures AlignedAt(q, y) {
      if y == x {
        ResetAligns(p, x);
      } else {
        assert AlignedAt(p, y);
      }
    }
  }

  lemma AlignedNone(p: Pool)
    ensures Aligned(p, [])
  {
  }

  lemma {:induction false} ResetAllKeepsInv(p: Pool, order: seq<Address>)
    requires AccountsInv(p)
    ensures var q := ResetAll(p, order); AccountsInv(q) && Follows(p, q) && Aligned(q, order)
    ensures IndexInv(p) ==> IndexInv(ResetAll(p, order))
    ensures Counted(p) ==> Counted(ResetAll(p, order))
  {
    hide AccountsInv, IndexInv, Counted, ResetOne, Aligned;
    if order == [] {
      AlignedNone(p);
    } else {
      var n := |order| - 1;
      ResetAllKeepsInv(p, order[..n]);
      var q := ResetAll(p, order[..n]);
      ResetOneKeepsInv(q, order[n]);
      ResetOneFollows(q, order[n]);
      AlignedOneMore(q, order[..n], order[n]);
      assert order == order[..n] + [order[n]];
    }
  }

  /** The index without the hashes of a block. */
  function Without(p: Pool, mined: seq<Tx>): Pool {
    p.(index := Forget(p.index, mined))
  }

  /** Forgetting mined hashes first or last makes no difference. */
  lemma {:induction false} ForgetCommutes(p: Pool, mined: seq<Tx>, order: seq<Address>)
    ensures var q := ResetAll(p, order);
            ResetAll(Without(p, mined), order) == Without(q, mined)
  {
    if order != [] {
      var n := |order| - 1;
      ForgetCommutes(p, mined, order[..n]);
      ForgetOneCommutes(ResetAll(p, order[..n]), mined, order[n]);
    }
  }

  lemma ForgetOneCommutes(p: Pool, mined: seq<Tx>, x: Address)
    ensures ResetOne(Without(p, mined), x) == Without(ResetOne(p, x), mined)
  {
    hide Lowered, TxAccount.Reset;
    if x in p.accounts {
      var (a, pp, pe) := TxAccount.Reset(p.accounts[x], StateNonce(p, x));
      assert p.index - Hashes(mined) - Hashes(pp) - Hashes(pe) == p.index - Hashes(pp) - Hashes(pe) - Hashes(mined);
    }
  }

  /** A returned transaction that is among the mined ones has been passed by the state. */
  ghost predicate ReturnedOk(p: Pool, mined: seq<Tx>, returned: seq<Returned>) {
    forall r :: r in returned && r.t.hash in Hashes(mined) ==> r.t.nonce < StateNonce(p, r.t.from)
  }

  lemma AddCommutes(p: Pool, mined: seq<Tx>, t: Tx, valid: bool)
    requires t.hash in Hashes(mined) ==> t.nonce < StateNonce(p, t.from)
    ensures AddTx(Without(p, mined), t, valid).0 == Without(AddTx(p, t, valid).0, mined)
  {
    hide Slots, Hashes, Wrap, NewAccount;
    InsertForgets(p.index, mined, t);
  }

  lemma InsertForgets(index: map<Hash, Tx>, mined: seq<Tx>, t: Tx)
    ensures t.hash !in Hashes(mined) ==> Forget(index[t.hash := t], mined) == Forget(index, mined)[t.hash := t]
    ensures t.hash !in Hashes(mined) ==> (t.hash in Forget(index, mined) <==> t.hash in index)
  {
  }

  lemma AddKeepsNonces(p: Pool, t: Tx, valid: bool)
    ensures AddTx(p, t, valid).0.stateNonces == p.stateNonces
    ensures p.accounts.Keys <= AddTx(p, t, valid).0.accounts.Keys
  {
  }

  lemma {:induction false} AddAllCommutes(p: Pool, mined: seq<Tx>, returned: seq<Returned>)
    requires ReturnedOk(p, mined, returned)
    ensures AddAll(Without(p, mined), returned) == Without(AddAll(p, returned), mined)
    ensures AddAll(p, returned).stateNonces == p.stateNonces
  {
    hide AddTx, Forget;
    if returned != [] {
      var n := |returned| - 1;
      AddAllCommutes(p, mined, returned[..n]);
      var q := AddAll(p, returned[..n]);
      assert returned[n] in returned;
      AddCommutes(q, mined, returned[n].t, returned[n].valid);
      AddKeepsNonces(q, returned[n].t, returned[n].valid);
    }
  }

  /** The block's transactions are ones the state has passed, their senders are visited,
      and hashes do not collide. */
  ghost predicate MinedOk(p: Pool, mined: seq<Tx>, order: seq<Address>) {
    forall m :: m in mined ==>
      && m.from in order
      && m.nonce < StateNonce(p, m.from)
      && (m.hash in p.index ==> p.index[m.hash] == m)
      && (forall u :: u in p.inFlight && u.hash == m.hash ==> u == m)
  }

  lemma QueuedNotMined(p: Pool, q: Pool, mined: seq<Tx>, order: seq<Address>, x: Address, t: Tx)
    requires Follows(p, q) && MinedOk(p, mined, order) && Aligned(q, order)
    requires x in q.accounts && HeldOk(q, x) && ListedOk(q, x) && t in All(q.accounts[x])
    ensures t.hash !in Hashes(mined)
  {
    hide AccountOk;
    assert t in q.accounts[x].promoted || t in q.accounts[x].enqueued;
    forall m | m in mined ensures m.hash != t.hash {
      assert x in order && m.from == x ==> AlignedAt(q, x);
    }
  }

  lemma ForgottenInFlight(p: Pool, q: Pool, mined: seq<Tx>, order: seq<Address>, t: Tx)
    requires IndexInv(q) && Follows(p, q) && MinedOk(p, mined, order) && Aligned(q, order) && t in q.inFlight
    ensures InFlightOk(Without(q, mined), t)
  {
    hide ListedOk, Separate, AtLeast;
    assert InFlightOk(q, t);
    if t.hash in Hashes(mined) {
      var m :| m in mined && m.hash == t.hash;
      assert t == m;
      assert AlignedAt(q, t.from);
    }
  }

  lemma ForgetMinedKeepsIndex(p: Pool, q: Pool, mined: seq<Tx>, order: seq<Address>)
    requires AccountsInv(q) && IndexInv(q) && Follows(p, q) && MinedOk(p, mined, order) && Aligned(q, order)
    ensures IndexInv(Without(q, mined))
  {
    hide InFlightOk, Follows, MinedOk, Aligned, HeldOk, ListedOk, All, Separate, Hashes;
    var r := Without(q, mined);
    forall x | x in r.accounts ensures ListedOk(r, x) {
      assert HeldOk(q, x) && ListedOk(q, x);
      forall t | t in All(q.accounts[x]) && Indexed(q, t) ensures Indexed(r, t) {
        QueuedNotMined(p, q, mined, order, x, t);
      }
      ListedCarries(q, r, x);
    }
    forall t | t in r.inFlight ensures InFlightOk(r, t) {
      ForgottenInFlight(p, q, mined, order, t);
    }
    SeparateSame(q, r);
  }

  lemma SeparateSame(p: Pool, q: Pool)
    requires Separate(p) && q.accounts == p.accounts && q.inFlight == p.inFlight
    ensures Separate(q)
  {
  }

  // ---------- Arrival of transactions ----------

  function WithAccount(p: Pool, x: Address): Pool {
    p.(accounts := p.accounts[x := NewAccount(StateNonce(p, x), p.maxEnqueued)])
  }

  lemma NewAccountCounted(p: Pool, x: Address)
    requires Counted(p) && x !in p.accounts
    ensures Counted(WithAccount(p, x))
  {
    hide Sums.Sum, Weights, Pendings, Wrap;
    EmptyAccountSums(p.accounts, x, NewAccount(StateNonce(p, x), p.maxEnqueued));
  }

  lemma EmptyAccountSums(accounts: map<Address, Account>, x: Address, b: Account)
    requires x !in accounts && b.enqueued == [] && b.promoted == []
    ensures Sums.Sum(Weights(accounts[x := b])) == Sums.Sum(Weights(accounts))
    ensures Sums.Sum(Pendings(accounts[x := b])) == Sums.Sum(Pendings(accounts))
  {
    hide Sums.Sum, WeightOf;
    EmptyWeight(b);
    Sums.SumUpdate(Weights(accounts), x, 0);
    assert Weights(accounts[x := b]) == Weights(accounts)[x := 0];
    Sums.SumUpdate(Pendings(accounts), x, 0);
    assert Pendings(accounts[x := b]) == Pendings(accounts)[x := 0];
  }

  lemma EmptyWeight(b: Account)
    requires b.enqueued == [] && b.promoted == []
    ensures WeightOf(b) == 0
  {
    SlotSumNone();
    assert All(b) == multiset{};
  }

  lemma NewAccountKeepsAccounts(p: Pool, x: Address)
    requires AccountsInv(p) && x !in p.accounts
    ensures AccountsInv(WithAccount(p, x))
  {
    hide HeldOk;
    var q := WithAccount(p, x);
    NewAccountHeld(p, x);
    forall y | y in q.accounts ensures HeldOk(q, y) {
      if y != x {
        assert HeldOk(p, y);
        HeldCarries(p, q, y);
      }
    }
  }

  lemma NewAccountHeld(p: Pool, x: Address)
    ensures HeldOk(WithAccount(p, x), x)
  {
  }

  lemma NewAccountKeepsIndex(p: Pool, x: Address)
    requires AccountsInv(p) && IndexInv(p) && x !in p.accounts
    ensures IndexInv(WithAccount(p, x))
  {
    hide HeldOk, ListedOk, InFlightOk, All, Separate;
    var q := WithAccount(p, x);
    EmptyListed(q, x);
    forall y | y in q.accounts ensures ListedOk(q, y) {
      if y != x {
        assert ListedOk(p, y);
        ListedCarries(p, q, y);
      }
    }
    forall t | t in q.inFlight ensures InFlightOk(q, t) {
      assert InFlightOk(p, t);
      FlightCarries(p, q, t);
    }
    NewAccountSeparate(p, x);
  }

  lemma EmptyListed(p: Pool, x: Address)
    requires x in p.accounts && p.accounts[x].enqueued == [] && p.accounts[x].promoted == []
    ensures ListedOk(p, x)
  {
  }

  lemma NewAccountSeparate(p: Pool, x: Address)
    requires x !in p.accounts && Separate(p)
    ensures Separate(WithAccount(p, x))
  {
    assert All(NewAccount(StateNonce(p, x), p.maxEnqueued)) == multiset{};
  }

  /** The pool once `t`, which has an account and a new hash, is indexed and on its way. */
  function Announced(p: Pool, t: Tx): Pool {
    p.(index := p.index[t.hash := t], inFlight := p.inFlight + multiset{t})
  }

  ghost predicate NoCollision(p: Pool, t: Tx) {
    forall u :: u in p.inFlight && u.hash == t.hash ==> u == t
  }

  lemma AnnouncedFlight(p: Pool, t: Tx, u: Tx)
    requires t.from in p.accounts && t.hash !in p.index && (t in p.inFlight ==> InFlightOk(p, t))
    requires u == t || (u in p.inFlight && InFlightOk(p, u) && u.hash != t.hash)
    ensures InFlightOk(Announced(p, t), u)
  {
  }

  lemma ListedHash(p: Pool, x: Address, t: Tx)
    requires x in p.accounts && ListedOk(p, x) && t in All(p.accounts[x])
    ensures t.hash in p.index
  {
  }

  lemma AnnouncedSeparate(p: Pool, t: Tx)
    requires Separate(p) && NoCollision(p, t)
    requires forall x, u :: x in p.accounts && u in All(p.accounts[x]) ==> u.hash != t.hash
    ensures Separate(Announced(p, t))
  {
    hide All;
    var q := Announced(p, t);
    assert forall u :: u in q.inFlight <==> u in p.inFlight || u == t;
  }

  /** A request for the same transaction may be in flight still; it is doubtful then, and so
      are both from now on. */
  lemma AnnounceKeepsIndex(p: Pool, t: Tx)
    requires IndexInv(p) && t.from in p.accounts && t.hash !in p.index && NoCollision(p, t)
    ensures IndexInv(Announced(p, t))
  {
    hide Separate, InFlightOk, All, ListedOk;
    var q := Announced(p, t);
    forall x, u | x in p.accounts && u in All(p.accounts[x]) ensures u.hash != t.hash {
      assert ListedOk(p, x);
      ListedHash(p, x, u);
    }
    AnnouncedSeparate(p, t);
    forall y | y in q.accounts ensures ListedOk(q, y) {
      assert ListedOk(p, y);
      ListedCarries(p, q, y);
    }
    forall u | u in q.inFlight ensures InFlightOk(q, u) {
      assert t in p.inFlight ==> InFlightOk(p, t);
      if u != t {
        assert u in p.inFlight;
        assert InFlightOk(p, u);
      }
      AnnouncedFlight(p, t, u);
    }
  }

  lemma AnnounceKeepsAccounts(p: Pool, t: Tx)
    requires AccountsInv(p) && t.from in p.accounts
    ensures AccountsInv(Announced(p, t))
  {
    hide AccountOk;
    var q := Announced(p, t);
    forall y | y in q.accounts ensures HeldOk(q, y) {
      assert HeldOk(p, y);
    }
  }

  lemma AddTxKeepsInv(p: Pool, t: Tx, valid: bool)
    requires AccountsInv(p)
    ensures AccountsInv(AddTx(p, t, valid).0)
    ensures IndexInv(p) && NoCollision(p, t) ==> IndexInv(AddTx(p, t, valid).0)
    ensures Counted(p) ==> Counted(AddTx(p, t, valid).0)
  {
    hide AccountsInv, IndexInv, Counted, Slots, HighPressure, NewAccount;
    if AddTx(p, t, valid).1.None? {
      var q := if t.from in p.accounts then p else WithAccount(p, t.from);
      if t.from !in p.accounts {
        NewAccountKeepsAccounts(p, t.from);
        if IndexInv(p) {
          NewAccountKeepsIndex(p, t.from);
        }
        if Counted(p) {
          NewAccountCounted(p, t.from);
        }
      }
      AnnounceKeepsAccounts(q, t);
      if IndexInv(p) && NoCollision(p, t) {
        AnnounceKeepsIndex(q, t);
      }
      CountedSame(q, Announced(q, t));
    }
  }

  /** None of the returned transactions has the hash of another request. */
  ghost predicate NoCollisions(p: Pool, returned: seq<Returned>) {
    returned == [] ||
    var n := |returned| - 1;
    NoCollisions(p, returned[..n]) && NoCollision(AddAll(p, returned[..n]), returned[n].t)
  }

  lemma {:induction false} AddAllKeepsInv(p: Pool, returned: seq<Returned>)
    requires AccountsInv(p)
    ensures AccountsInv(AddAll(p, returned))
    ensures IndexInv(p) && NoCollisions(p, returned) ==> IndexInv(AddAll(p, returned))
    ensures Counted(p) ==> Counted(AddAll(p, returned))
  {
    hide AccountsInv, IndexInv, Counted, AddTx, NoCollision;
    if returned != [] {
      var n := |returned| - 1;
      AddAllKeepsInv(p, returned[..n]);
      AddTxKeepsInv(AddAll(p, returned[..n]), returned[n].t, returned[n].valid);
    }
  }

  /** What a new block, with the branch it replaces, may look like. */
  ghost predicate EventOk(p: Pool, mined: seq<Tx>, returned: seq<Returned>, order: seq<Address>) {
    NoCollisions(p, returned) && ReturnedOk(p, mined, returned) && MinedOk(AddAll(p, returned), mined, order)
  }

  lemma ProcessEventKeepsInv(p: Pool, mined: seq<Tx>, returned: seq<Returned>, order: seq<Address>)
    requires AccountsInv(p)
    ensures AccountsInv(ProcessEvent(p, mined, returned, order))
    ensures IndexInv(p) && EventOk(p, mined, returned, order) ==> IndexInv(ProcessEvent(p, mined, returned, order))
    ensures Counted(p) ==> Counted(ProcessEvent(p, mined, returned, order))
  {
    hide AccountsInv, IndexInv, Counted, NoCollisions, ReturnedOk, MinedOk, Aligned, Follows;
    WithoutKeeps(p, mined);
    AddAllKeepsInv(Without(p, mined), returned);
    ResetAllKeepsInv(AddAll(Without(p, mined), returned), order);
    if IndexInv(p) && EventOk(p, mined, returned, order) {
      AddAllCommutes(p, mined, returned);
      AddAllKeepsInv(p, returned);
      var q := AddAll(p, returned);
      ResetAllKeepsInv(q, order);
      ForgetCommutes(q, mined, order);
      ForgetMinedKeepsIndex(q, ResetAll(q, order), mined, order);
    }
  }

  lemma WithoutKeeps(p: Pool, mined: seq<Tx>)
    ensures AccountsInv(p) ==> AccountsInv(Without(p, mined))
    ensures Counted(p) ==> Counted(Without(p, mined))
  {
    hide AccountOk;
    CountedSame(p, Without(p, mined));
    if AccountsInv(p) {
      forall x | x in p.accounts ensures HeldOk(Without(p, mined), x) {
        assert HeldOk(p, x);
      }
    }
  }

  // ---------- Handling an enqueue request ----------

  /** Only a transaction that the index knows, and that is requested once, is accepted. */
  lemma AcceptedIsKnown(p: Pool, t: Tx)
    requires IndexInv(p) && t in p.inFlight && t.from in p.accounts
    ensures TxAccount.Enqueue(p.accounts[t.from], t).1.None? ==> Indexed(p, t) && p.inFlight[t] == 1
  {
    hide ListedOk, Separate;
    assert InFlightOk(p, t);
  }

  function Accepted(p: Pool, t: Tx): Pool
    requires t.from in p.accounts
  {
    var a := p.accounts[t.from];
    p.(inFlight := p.inFlight - multiset{t}, accounts := p.accounts[t.from := a.(enqueued := PushTx(a.enqueued, t))],
       height := Wrap(p.height + Slots(t)))
  }

  lemma PushedWeight(a: Account, t: Tx)
    requires QueueOk(a.enqueued)
    ensures WeightOf(a.(enqueued := PushTx(a.enqueued, t))) == WeightOf(a) + Slots(t)
  {
    hide SlotSum, PushTx, QueueOk, Slots;
    var b := a.(enqueued := PushTx(a.enqueued, t));
    PushTxOk(a.enqueued, t);
    assert All(b) == All(a) + multiset{t};
    SlotSumAdd(All(a), multiset{t});
    SlotSumOne(t);
  }

  lemma AcceptedCounted(p: Pool, t: Tx)
    requires Counted(p) && t.from in p.accounts && QueueOk(p.accounts[t.from].enqueued)
    ensures Counted(Accepted(p, t))
  {
    hide Sums.Sum, WeightOf, PushTx, QueueOk, Slots, Wrap;
    var a := p.accounts[t.from];
    var b := a.(enqueued := PushTx(a.enqueued, t));
    PushedWeight(a, t);
    WeightsUpdate(p.accounts, t.from, b);
    PendingsUpdate(p.accounts, t.from, b);
    WrapOfWrap(Sums.Sum(Weights(p.accounts)), Slots(t));
  }

  lemma AcceptedAll(p: Pool, t: Tx)
    requires t.from in p.accounts && QueueOk(p.accounts[t.from].enqueued)
    ensures All(Accepted(p, t).accounts[t.from]) == All(p.accounts[t.from]) + multiset{t}
  {
    PushTxOk(p.accounts[t.from].enqueued, t);
  }

  lemma AcceptKeepsAccounts(p: Pool, t: Tx)
    requires AccountsInv(p) && t.from in p.accounts && TxAccount.Enqueue(p.accounts[t.from], t).1.None?
    ensures AccountsInv(Accepted(p, t))
  {
    hide AccountOk, PushTx, QueueOk, All, HeldOk;
    HeldByOwner(p, t.from);
    AcceptedAll(p, t);
    var q := Accepted(p, t);
    forall y | y in q.accounts ensures HeldOk(q, y) {
      assert HeldOk(p, y);
      if y == t.from {
        AcceptedHeld(p, t);
      } else {
        HeldCarries(p, q, y);
      }
    }
  }

  lemma AcceptedHeld(p: Pool, t: Tx)
    requires t.from in p.accounts && HeldOk(p, t.from) && TxAccount.Enqueue(p.accounts[t.from], t).1.None?
    requires All(Accepted(p, t).accounts[t.from]) == All(p.accounts[t.from]) + multiset{t}
    ensures HeldOk(Accepted(p, t), t.from)
  {
    hide AccountOk, All;
    EnqueueKeepsOk(p.accounts[t.from], t);
  }

  lemma AcceptedListed(p: Pool, t: Tx, y: Address)
    requires IndexInv(p) && t in p.inFlight && Indexed(p, t)
    requires t.from in p.accounts && y in p.accounts
    requires All(Accepted(p, t).accounts[t.from]) == All(p.accounts[t.from]) + multiset{t}
    ensures ListedOk(Accepted(p, t), y)
  {
    hide PushTx, InFlightOk;
    var q := Accepted(p, t);
    assert ListedOk(p, y);
    forall u | u in All(q.accounts[y]) ensures All(q.accounts[y])[u] == 1 && Indexed(q, u) {
      if y == t.from {
        assert t !in All(p.accounts[y]);
      }
    }
  }

  lemma AcceptedSeparate(p: Pool, t: Tx)
    requires Separate(p) && p.inFlight[t] == 1 && t.from in p.accounts
    requires All(Accepted(p, t).accounts[t.from]) == All(p.accounts[t.from]) + multiset{t}
    ensures Separate(Accepted(p, t))
  {
    hide PushTx, All;
    var q := Accepted(p, t);
    assert forall u :: u in q.inFlight ==> u in p.inFlight && u != t;
    forall u, x, w | u in q.inFlight && x in q.accounts && w in All(q.accounts[x]) ensures u.hash != w.hash {
      if w != t {
        assert w in All(p.accounts[x]);
      }
    }
  }

  lemma AcceptKeepsIndex(p: Pool, t: Tx)
    requires AccountsInv(p) && IndexInv(p) && t in p.inFlight && t.from in p.accounts
    requires TxAccount.Enqueue(p.accounts[t.from], t).1.None?
    ensures IndexInv(Accepted(p, t))
  {
    hide AccountsInv, PushTx, QueueOk, AccountOk, ListedOk, Separate, All, InFlightOk;
    HeldByOwner(p, t.from);
    AcceptedIsKnown(p, t);
    AcceptedAll(p, t);
    var q := Accepted(p, t);
    forall y | y in q.accounts ensures ListedOk(q, y) {
      AcceptedListed(p, t, y);
    }
    AcceptedSeparate(p, t);
    forall u | u in q.inFlight ensures InFlightOk(q, u) {
      assert u in p.inFlight;
      assert InFlightOk(p, u);
      InFlightAccount(p, u);
      FlightCarries(p, q, u);
    }
  }

  function Refused(p: Pool, t: Tx): Pool {
    p.(inFlight := p.inFlight - multiset{t}, index := Forget(p.index, [t]))
  }

  lemma RefusedListed(p: Pool, t: Tx, y: Address)
    requires IndexInv(p) && t in p.inFlight && y in p.accounts
    ensures ListedOk(Refused(p, t), y)
  {
    hide InFlightOk;
    assert ListedOk(p, y);
  }

  lemma RefusedFlight(p: Pool, t: Tx, u: Tx)
    requires IndexInv(p) && t in p.inFlight && u in Refused(p, t).inFlight
    ensures InFlightOk(Refused(p, t), u)
  {
    hide ListedOk;
    assert InFlightOk(p, t) && u in p.inFlight;
    assert InFlightOk(p, u);
  }

  lemma RefuseKeepsIndex(p: Pool, t: Tx)
    requires IndexInv(p) && t in p.inFlight
    ensures IndexInv(Refused(p, t))
  {
    hide ListedOk, InFlightOk, Forget;
    var q := Refused(p, t);
    forall y | y in q.accounts ensures ListedOk(q, y) {
      RefusedListed(p, t, y);
    }
    forall u | u in q.inFlight ensures InFlightOk(q, u) {
      RefusedFlight(p, t, u);
    }
  }

  lemma RefuseKeepsAccounts(p: Pool, t: Tx)
    requires AccountsInv(p)
    ensures AccountsInv(Refused(p, t))
  {
    hide AccountOk;
    forall y | y in p.accounts ensures HeldOk(Refused(p, t), y) {
      assert HeldOk(p, y);
    }
  }

  lemma EnqueueKeepsInv(p: Pool, t: Tx)
    requires AccountsInv(p) && t in p.inFlight
    ensures t.from in p.accounts && AccountsInv(HandleEnqueue(p, t))
    ensures IndexInv(p) ==> IndexInv(HandleEnqueue(p, t))
    ensures Counted(p) ==> Counted(HandleEnqueue(p, t))
  {
    hide IndexInv, Counted, Slots, Forget, AccountOk, QueueOk, All, HeldOk;
    assert t.from in p.accounts;
    HeldByOwner(p, t.from);
    hide AccountsInv;
    if TxAccount.Enqueue(p.accounts[t.from], t).1.None? {
      AcceptKeepsAccounts(p, t);
      if IndexInv(p) {
        AcceptKeepsIndex(p, t);
      }
      if Counted(p) {
        AcceptedCounted(p, t);
      }
    } else {
      RefuseKeepsAccounts(p, t);
      if IndexInv(p) {
        RefuseKeepsIndex(p, t);
      }
      CountedSame(p, Refused(p, t));
    }
  }
}
