/** Laws of whole messages and whole blocks. */
module BlockLaws {
  import opened Words
  import opened Maps
  import opened WorldState
  import opened PlainState
  import opened Sstore
  import opened Executor
  import opened Conservation
  import opened BlockExec
  import Sums

  // ---------- Balances ----------

  /** Burned while the message ran: nothing if it was rejected. */
  ghost function BurnedBy(b: Block, m: Message, env: Env): nat {
    var s := Step(b.state, Snapshot);
    if Violation(s, b.gasPool, m, env.forks).Some? then 0 else
      BurnedTop(Charged(s, m), m, m.gas - IntrinsicGas(m, env.forks), env.forks)
  }

  /** Burned by the top frame. */
  ghost function BurnedTop(s: TxnState, m: Message, gas: uint64, f: Forks): nat {
    if m.to.None? then BurnedCreate(s, TopFrame(m, gas), f)
    else BurnedCall(Step(s, IncrNonce(m.from)), TopFrame(m, gas), f)
  }

  lemma TopConserves(s: TxnState, m: Message, gas: uint64, f: Forks)
    ensures TotalOf(RunTop(s, m, gas, f).0) + BurnedTop(s, m, gas, f) == TotalOf(s)
  {
    hide Step, TotalOf, ApplyCall, ApplyCreate, BurnedCall, BurnedCreate;
    if m.to.None? {
      CreateConserves(s, TopFrame(m, gas), f);
    } else {
      TotalAfter(s, IncrNonce(m.from));
      CallConserves(Step(s, IncrNonce(m.from)), TopFrame(m, gas), f);
    }
  }

  lemma PayAdds(s: TxnState, m: Message, used: uint64, left: uint64, coinbase: Address)
    ensures TotalOf(Pay(s, m, used, left, coinbase)) == TotalOf(s) + (used + left) * m.gasPrice
  {
    hide Step, TotalOf;
    TotalAfter(s, AddBalance(m.from, left * m.gasPrice));
    TotalAfter(Step(s, AddBalance(m.from, left * m.gasPrice)), AddBalance(coinbase, used * m.gasPrice));
    assert used * m.gasPrice + left * m.gasPrice == (used + left) * m.gasPrice;
  }

  lemma ChargedTotal(s: TxnState, m: Message)
    requires m.gasPrice * m.gas <= Balance(s, m.from)
    ensures TotalOf(Charged(s, m)) == TotalOf(s) - m.gasPrice * m.gas
  {
    TotalAfter(s, SubBalance(m.from, m.gasPrice * m.gas));
  }

  /** A message that is executed, with any tree of frames under it and any inner failures,
      changes the sum of all balances by exactly what self-destructs burned: the gas bought,
      the gas returned and the fee of the block's beneficiary cancel. */
  lemma ApplyConserves(b: Block, m: Message, env: Env)
    requires RunIsMetered(m, env.forks)
    ensures TotalOf(Apply(b, m, env).0.state) + BurnedBy(b, m, env) == TotalOf(b.state)
  {
    hide TotalOf, Execute, Charged, BurnedTop, Step, IntrinsicGas, Nonce, Balance;
    var s := Step(b.state, Snapshot);
    SnapshotTotal(b.state);
    if Violation(s, b.gasPool, m, env.forks).None? {
      ChargedTotal(s, m);
      ExecuteConserves(Charged(s, m), b.gasPool, m, env);
    }
  }

  lemma ExecuteConserves(s: TxnState, pool: uint64, m: Message, env: Env)
    requires RunIsMetered(m, env.forks) && m.gas >= IntrinsicGas(m, env.forks)
    ensures TotalOf(Execute(s, pool, m, env).0) + BurnedTop(s, m, m.gas - IntrinsicGas(m, env.forks), env.forks) ==
            TotalOf(s) + m.gasPrice * m.gas
  {
    hide TotalOf, Pay, RunTop, BurnedTop, Settle, IntrinsicGas;
    var f := env.forks;
    var gas := m.gas - IntrinsicGas(m, f);
    TopConserves(s, m, gas, f);
    TopGas(s, m, gas, f);
    var (u, r) := RunTop(s, m, gas, f);
    SettleSplits(m.gas, r.gasLeft, u.current.refund);
    var (used, left) := Settle(m.gas, r.gasLeft, u.current.refund);
    PayAdds(u, m, used, left, env.coinbase);
  }

  lemma SnapshotTotal(s: TxnState)
    ensures TotalOf(Step(s, Snapshot)) == TotalOf(s)
  {
    TotalUnchanged(s, Snapshot);
  }

  /** With no contract naming itself as beneficiary the sum does not change at all. */
  lemma ApplyConservesExactly(b: Block, m: Message, env: Env)
    requires RunIsMetered(m, env.forks) && NoSelfBurns(m.ops)
    ensures TotalOf(Apply(b, m, env).0.state) == TotalOf(b.state)
  {
    hide TotalOf, Apply, BurnedBy;
    ApplyConserves(b, m, env);
    MessageBurnsNothing(b, m, env);
  }

  lemma MessageBurnsNothing(b: Block, m: Message, env: Env)
    requires NoSelfBurns(m.ops)
    ensures BurnedBy(b, m, env) == 0
  {
    hide Step, BurnedOps, IntrinsicGas, Balance, Nonce, Charged;
    var f := env.forks;
    var t := Charged(Step(b.state, Snapshot), m);
    if m.gas >= IntrinsicGas(m, f) {
      var fr := TopFrame(m, m.gas - IntrinsicGas(m, f));
      NothingBurnedAll(EnterCall(Step(t, IncrNonce(m.from)), fr), m.ops, f);
      var c := EnterCreate(Step(t, IncrNonce(m.from)), fr, f);
      NothingBurnedAll(Transfer(c, m.from, fr.address, fr.value), m.ops, f);
    }
  }

  /** A rejected message leaves the world state exactly as it was. */
  lemma RejectedChangesNothing(b: Block, m: Message, env: Env)
    requires Apply(b, m, env).1.Rejected?
    ensures Apply(b, m, env).0.state.current == b.state.current && LogsOf(Apply(b, m, env).0.state) == LogsOf(b.state)
    ensures Apply(b, m, env).0.totalGas == b.totalGas && Apply(b, m, env).0.receipts == b.receipts
  {
  }

  // ---------- Accounts deleted at the end of a transaction ----------

  function Removed(p: Accounts, touched: set<Address>): Accounts {
    map a | a in p && a in touched && !Survives(p[a], true) :: p[a]
  }

  /** What the accounts deleted after a transaction still hold. */
  ghost function Lost(s: TxnState): int {
    Total(Removed(View(s), s.current.objects.Keys))
  }

  lemma BalancesSplit(p: Accounts, touched: set<Address>)
    ensures Cleaned(p, touched, true).Keys !! Removed(p, touched).Keys
    ensures Balances(p) == Balances(Cleaned(p, touched, true)) + Balances(Removed(p, touched))
  {
    hide Survives;
    var c, r := Cleaned(p, touched, true), Removed(p, touched);
    forall a: Address ensures SameAt(Balances(c) + Balances(r), Balances(p), a) {
      BalanceSplits(p, touched, a);
    }
    Extensional(Balances(c) + Balances(r), Balances(p));
  }

  lemma BalanceSplits(p: Accounts, touched: set<Address>, a: Address)
    ensures var c, r := Cleaned(p, touched, true), Removed(p, touched);
            && (a in p <==> a in c || a in r) && !(a in c && a in r)
            && (a in c ==> c[a] == p[a]) && (a in r ==> r[a] == p[a])
  {
    hide Survives;
  }

  lemma CleanedTotal(p: Accounts, touched: set<Address>)
    ensures Total(Cleaned(p, touched, true)) + Total(Removed(p, touched)) == Total(p)
  {
    BalancesSplit(p, touched);
    hide Sums.Sum, Cleaned, Removed;
    Sums.SumUnion(Balances(Cleaned(p, touched, true)), Balances(Removed(p, touched)));
  }

  lemma CleanLoses(s: TxnState)
    ensures TotalOf(Step(s, Clean(true))) == TotalOf(s) - Lost(s)
  {
    CleanView(s, true);
    CleanedTotal(View(s), s.current.objects.Keys);
  }

  /** Nothing is lost if and only if no suicided account was paid after its suicide. */
  lemma LostNothingIff(s: TxnState)
    ensures Lost(s) == 0 <==>
            forall a :: a in View(s) && a in s.current.objects && View(s)[a].suicided ==> View(s)[a].balance == 0
  {
    var p := View(s);
    var removed := Removed(p, s.current.objects.Keys);
    Sums.SumZeroIff(Balances(removed));
    hide Sums.Sum;
    assert forall a :: a in Balances(removed) ==> Balances(removed)[a] == p[a].balance;
  }

  /** The balance sheet of one transaction of a block. */
  lemma WriteConserves(b: Block, m: Message, env: Env)
    requires RunIsMetered(m, env.forks)
    ensures TotalOf(Write(b, m, env).0.state) + BurnedBy(b, m, env)
            + (if Apply(b, m, env).1.Rejected? then 0 else Lost(Apply(b, m, env).0.state)) == TotalOf(b.state)
  {
    ApplyConserves(b, m, env);
    var (c, e) := Apply(b, m, env);
    TakeLogsKeeps(c.state);
    CleanLoses(Step(c.state, TakeLogs));
    hide TotalOf, Lost, Apply, BurnedBy, Step;
  }

  lemma TakeLogsKeeps(s: TxnState)
    ensures TotalOf(Step(s, TakeLogs)) == TotalOf(s)
    ensures Lost(Step(s, TakeLogs)) == Lost(s)
  {
    TotalUnchanged(s, TakeLogs);
  }

  // ---------- Balances of a block ----------

  /** What a transaction of a block takes out of circulation: burned by self-destructs, or
      lost with deleted accounts. */
  ghost function GoneBy(b: Block, m: Message, limit: uint64, env: Env): int {
    if m.gas > limit then 0
    else BurnedBy(b, m, env) + if Apply(b, m, env).1.Rejected? then 0 else Lost(Apply(b, m, env).0.state)
  }

  ghost function Gone(b: Block, msgs: seq<Message>, limit: uint64, env: Env): int {
    if msgs == [] then 0 else
      var n := |msgs| - 1;
      var (c, ok) := Process(b, msgs[..n], limit, env);
      Gone(b, msgs[..n], limit, env) + if ok then GoneBy(c, msgs[n], limit, env) else 0
  }

  lemma ProcessOneConserves(b: Block, m: Message, limit: uint64, env: Env)
    requires RunIsMetered(m, env.forks)
    ensures TotalOf(ProcessOne(b, m, limit, env).0.state) + GoneBy(b, m, limit, env) == TotalOf(b.state)
  {
    hide TotalOf, Lost, Apply, BurnedBy, Step, Write;
    if m.gas > limit {
      TakeLogsKeeps(b.state);
    } else {
      WriteConserves(b, m, env);
    }
  }

  /** The balance sheet of a whole block, up to where its processing ends: fees, transfers and
      refunds of all its transactions cancel. */
  lemma {:induction false} ProcessConserves(b: Block, msgs: seq<Message>, limit: uint64, env: Env)
    requires forall m :: m in msgs ==> RunIsMetered(m, env.forks)
    ensures TotalOf(Process(b, msgs, limit, env).0.state) + Gone(b, msgs, limit, env) == TotalOf(b.state)
  {
    hide TotalOf, GoneBy, ProcessOne, RunIsMetered;
    if msgs != [] {
      var n := |msgs| - 1;
      ProcessConserves(b, msgs[..n], limit, env);
      var (c, ok) := Process(b, msgs[..n], limit, env);
      if ok {
        ProcessOneConserves(c, msgs[n], limit, env);
      }
    }
  }

  // ---------- Gas of a block ----------

  function GasOf(receipts: seq<Receipt>): nat {
    if receipts == [] then 0 else GasOf(receipts[..|receipts| - 1]) + receipts[|receipts| - 1].gasUsed
  }

  /** Gas spent and gas still on offer stay within the limit, and every receipt carries the
      sum of the gas used up to it. */
  ghost predicate GasInv(b: Block, limit: uint64) {
    && b.totalGas + b.gasPool <= limit
    && b.totalGas == GasOf(b.receipts)
    && forall i :: 0 <= i < |b.receipts| ==> b.receipts[i].cumulativeGasUsed == GasOf(b.receipts[..i + 1])
  }

  datatype BlockEvent = WriteTx(m: Message) | FailTx(m: Message) | ApplyTx(m: Message)

  function Happens(b: Block, e: BlockEvent, env: Env): Block {
    match e
    case WriteTx(m) => Write(b, m, env).0
    case FailTx(m) => WriteFailedReceipt(b, m)
    case ApplyTx(m) => Apply(b, m, env).0
  }

  function RunBlock(b: Block, events: seq<BlockEvent>, env: Env): Block
    decreases |events|
  {
    if events == [] then b else RunBlock(Happens(b, events[0], env), events[1..], env)
  }

  /** An executed message moves its gas from the pool: what it did not use comes back. */
  lemma ApplyGas(b: Block, m: Message, env: Env)
    requires RunIsMetered(m, env.forks)
    ensures var (c, e) := Apply(b, m, env);
            && c.totalGas == b.totalGas && c.receipts == b.receipts
            && c.gasPool + (if e.Applied? then e.gasUsed else 0) <= b.gasPool
            && (e.Applied? ==> c.gasPool + e.gasUsed == b.gasPool)
  {
    hide RunTop, Charged, Step, Settle, Pay, Nonce, Balance;
    var s := Step(b.state, Snapshot);
    if Violation(s, b.gasPool, m, env.forks).None? {
      var f, t := env.forks, Charged(s, m);
      var gas := m.gas - IntrinsicGas(m, f);
      TopGas(t, m, gas, f);
      var (u, r) := RunTop(t, m, gas, f);
      SettleSplits(m.gas, r.gasLeft, u.current.refund);
    }
  }

  lemma ReceiptKeepsInv(b: Block, c: Block, r: Receipt, limit: uint64)
    requires GasInv(b, limit)
    requires c.receipts == b.receipts + [r]
    requires c.totalGas == b.totalGas + r.gasUsed && r.cumulativeGasUsed == c.totalGas
    requires c.totalGas + c.gasPool <= limit
    ensures GasInv(c, limit)
  {
    assert c.receipts[..|b.receipts|] == b.receipts;
    assert c.receipts[..|c.receipts|] == c.receipts;
    forall i | 0 <= i < |c.receipts|
      ensures c.receipts[i].cumulativeGasUsed == GasOf(c.receipts[..i + 1])
    {
      if i < |b.receipts| {
        assert c.receipts[..i + 1] == b.receipts[..i + 1];
      }
    }
  }

  lemma WriteKeepsInv(b: Block, m: Message, env: Env, limit: uint64)
    requires GasInv(b, limit) && RunIsMetered(m, env.forks)
    ensures GasInv(Write(b, m, env).0, limit)
  {
    hide Apply, GasOf, Step;
    ApplyGas(b, m, env);
    var (c, e) := Apply(b, m, env);
    if e.Applied? {
      var w := Write(b, m, env).0;
      ReceiptKeepsInv(b, w, w.receipts[|b.receipts|], limit);
    }
  }

  lemma FailKeepsInv(b: Block, m: Message, limit: uint64)
    requires GasInv(b, limit)
    ensures GasInv(WriteFailedReceipt(b, m), limit)
  {
    hide GasOf, Step;
    var w := WriteFailedReceipt(b, m);
    ReceiptKeepsInv(b, w, w.receipts[|b.receipts|], limit);
  }

  lemma ApplyKeepsInv(b: Block, m: Message, env: Env, limit: uint64)
    requires GasInv(b, limit) && RunIsMetered(m, env.forks)
    ensures GasInv(Apply(b, m, env).0, limit)
  {
    hide Apply;
    ApplyGas(b, m, env);
  }

  lemma HappensKeepsInv(b: Block, e: BlockEvent, env: Env, limit: uint64)
    requires GasInv(b, limit) && RunIsMetered(e.m, env.forks)
    ensures GasInv(Happens(b, e, env), limit)
  {
    hide Apply, Write, WriteFailedReceipt, GasInv;
    match e
    case FailTx(m) => FailKeepsInv(b, m, limit);
    case ApplyTx(m) => ApplyKeepsInv(b, m, env, limit);
    case WriteTx(m) => WriteKeepsInv(b, m, env, limit);
  }

  /** In every run of a block, failed attempts included, gas spent plus gas on offer never
      exceeds the block's limit, and each receipt's cumulative gas is the prefix sum. */
  lemma {:induction false} RunKeepsGasInv(b: Block, events: seq<BlockEvent>, env: Env, limit: uint64)
    requires GasInv(b, limit)
    requires forall e :: e in events ==> RunIsMetered(e.m, env.forks)
    ensures GasInv(RunBlock(b, events, env), limit)
    decreases |events|
  {
    if events != [] {
      HappensKeepsInv(b, events[0], env, limit);
      RunKeepsGasInv(Happens(b, events[0], env), events[1..], env, limit);
    }
  }

  /** So a processed block spends no more than its limit. */
  lemma {:induction false} ProcessedWithinLimit(b: Block, msgs: seq<Message>, limit: uint64, env: Env)
    requires GasInv(b, limit) && forall m :: m in msgs ==> RunIsMetered(m, env.forks)
    ensures GasInv(Process(b, msgs, limit, env).0, limit)
  {
    hide GasInv, Write, WriteFailedReceipt, RunIsMetered;
    if msgs != [] {
      var n := |msgs| - 1;
      ProcessedWithinLimit(b, msgs[..n], limit, env);
      var (c, ok) := Process(b, msgs[..n], limit, env);
      if ok {
        FailKeepsInv(c, msgs[n], limit);
        WriteKeepsInv(c, msgs[n], env, limit);
      }
    }
  }

  lemma BlockStaysWithinLimit(base: Base, limit: uint64, events: seq<BlockEvent>, env: Env)
    requires forall e :: e in events ==> RunIsMetered(e.m, env.forks)
    ensures var b := RunBlock(BeginBlock(base, limit), events, env);
            b.totalGas + b.gasPool <= limit && GasInv(b, limit)
  {
    RunKeepsGasInv(BeginBlock(base, limit), events, env, limit);
  }
}
