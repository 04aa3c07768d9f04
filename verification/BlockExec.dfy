/** Transactions of a block: purchase of gas, the top frame, refund and fee, the block's gas
    pool and its receipts (state/executor.go). */
module BlockExec {
  import opened Wrappers
  import opened Words
  import opened WorldState
  import opened Sstore
  import opened Executor

  /** A transaction with what its top frame does. `created` is the address a creation by
      this sender and nonce gets. */
  datatype Message = Message(
    hash: nat, from: Address, nonce: uint64, gasPrice: nat, gas: uint64, to: Option<Address>, value: nat,
    input: seq<nat>, created: Address, ops: seq<HostOp>, outcome: Result)

  datatype Receipt = Receipt(
    txHash: nat, cumulativeGasUsed: uint64, gasUsed: uint64, failed: bool, logs: seq<Log>,
    contractAddress: Option<Address>)

  datatype Env = Env(forks: Forks, coinbase: Address)

  datatype Block = Block(state: TxnState, gasPool: uint64, totalGas: uint64, receipts: seq<Receipt>)

  datatype Failure =
    | NonceIncorrect | NotEnoughFundsForGas | BlockLimitReached
    | IntrinsicGasOverflow | NotEnoughIntrinsicGas | NotEnoughFunds

  datatype Executed = Rejected(why: Failure) | Applied(gasUsed: uint64, gasLeft: uint64, failed: bool)

  // ---------- Intrinsic gas ----------

  const TX_GAS := 21000
  const TX_GAS_CREATION := 53000
  const ZERO_BYTE_GAS := 4

  function NonZeroByteGas(f: Forks): nat {
    if f.istanbul then 16 else 68
  }

  /** Each byte of the payload is paid for by its value. */
  function PayloadGas(input: seq<nat>, f: Forks): nat {
    if input == [] then 0 else
      PayloadGas(input[..|input| - 1], f) + if input[|input| - 1] == 0 then ZERO_BYTE_GAS else NonZeroByteGas(f)
  }

  /** The exact intrinsic cost, not limited to 64 bits. */
  function IntrinsicGas(m: Message, f: Forks): nat {
    (if m.to.None? && f.homestead then TX_GAS_CREATION else TX_GAS) + PayloadGas(m.input, f)
  }

  /** The intrinsic cost, or nothing exactly when it does not fit 64 bits. */
  method TransactionGasCost(m: Message, f: Forks) returns (r: Option<uint64>)
    requires |m.input| < TWO_64
    ensures r == if IntrinsicGas(m, f) < TWO_64 then Some(IntrinsicGas(m, f)) else None
  {
    hide PayloadGas;
    var cost: uint64 := if m.to.None? && f.homestead then TX_GAS_CREATION else TX_GAS;
    NoPayloadNoGas(f);
    if |m.input| > 0 {
      var zeros := CountZeros(m.input, f);
      var nonZeros := |m.input| - zeros;
      var nonZeroCost := if f.istanbul then 16 else 68;
      if (MAX_UINT64 - cost) / nonZeroCost < nonZeros {
        return None;
      }
      cost := cost + nonZeros * nonZeroCost;
      if (MAX_UINT64 - cost) / 4 < zeros {
        return None;
      }
      cost := cost + zeros * 4;
    }
    r := Some(cost);
  }

  lemma NoPayloadNoGas(f: Forks)
    ensures PayloadGas([], f) == 0
  {
  }

  method CountZeros(input: seq<nat>, ghost f: Forks) returns (zeros: nat)
    ensures zeros <= |input|
    ensures PayloadGas(input, f) == (|input| - zeros) * NonZeroByteGas(f) + zeros * ZERO_BYTE_GAS
  {
    zeros := 0;
    for i := 0 to |input|
      invariant zeros <= i
      invariant PayloadGas(input[..i], f) == (i - zeros) * NonZeroByteGas(f) + zeros * ZERO_BYTE_GAS
    {
      assert input[..i + 1][..i] == input[..i];
      if input[i] == 0 {
        zeros := zeros + 1;
      }
    }
    assert input[..|input|] == input;
  }

  // ---------- One message ----------

  function TopFrame(m: Message, gas: uint64): Frame {
    Frame(if m.to.None? then Create else Call, m.from, if m.to.None? then m.created else m.to.value,
          Some(m.value), gas, 1, m.ops, m.outcome)
  }

  /** Runs the top frame of an accepted message. */
  function RunTop(s: TxnState, m: Message, gas: uint64, f: Forks): (r: (TxnState, Result))
    ensures s.snapshots <= r.0.snapshots && r.0.base == s.base
  {
    if m.to.None? then ApplyCreate(s, TopFrame(m, gas), f)
    else ApplyCall(Step(s, IncrNonce(m.from)), TopFrame(m, gas), f)
  }

  /** At most half of the gas used comes back. */
  function CappedRefund(used: uint64, refund: uint64): uint64 {
    if refund > used / 2 then used / 2 else refund
  }

  /** Gas used and gas left once the refund is granted. */
  function Settle(gas: uint64, left: uint64, refund: uint64): (uint64, uint64) {
    var used := Wrap(gas - left);
    (used - CappedRefund(used, refund), Wrap(left + CappedRefund(used, refund)))
  }

  function Pay(s: TxnState, m: Message, used: uint64, left: uint64, coinbase: Address): (t: TxnState)
    ensures t.snapshots == s.snapshots && t.base == s.base
  {
    Step(Step(s, AddBalance(m.from, left * m.gasPrice)), AddBalance(coinbase, used * m.gasPrice))
  }

  /** The state once the gas is bought. */
  function Charged(s: TxnState, m: Message): (t: TxnState)
    ensures t.snapshots == s.snapshots && t.base == s.base && t.arrays == s.arrays
  {
    Step(s, SubBalance(m.from, m.gasPrice * m.gas))
  }

  /** The first consensus rule the message breaks. */
  function Violation(s: TxnState, pool: uint64, m: Message, f: Forks): Option<Failure> {
    if Nonce(s, m.from) != m.nonce then Some(NonceIncorrect)
    else if Balance(s, m.from) < m.gasPrice * m.gas then Some(NotEnoughFundsForGas)
    else if pool < m.gas then Some(BlockLimitReached)
    else if IntrinsicGas(m, f) >= TWO_64 then Some(IntrinsicGasOverflow)
    else if m.gas < IntrinsicGas(m, f) then Some(NotEnoughIntrinsicGas)
    else if Balance(Charged(s, m), m.from) < m.value then Some(NotEnoughFunds)
    else None
  }

  /** The pool after a rejected message: gas is taken before the later rules are checked and
      not given back. */
  function PoolAfterRejection(pool: uint64, m: Message, why: Failure): uint64 {
    if why.NonceIncorrect? || why.NotEnoughFundsForGas? || why.BlockLimitReached? || pool < m.gas then pool
    else pool - m.gas
  }

  function Execute(s: TxnState, pool: uint64, m: Message, env: Env): (r: (TxnState, uint64, Executed))
    requires m.gas >= IntrinsicGas(m, env.forks)
    ensures s.snapshots <= r.0.snapshots && r.0.base == s.base
    ensures r.2.Applied?
  {
    var (u, r) := RunTop(s, m, m.gas - IntrinsicGas(m, env.forks), env.forks);
    var (used, left) := Settle(m.gas, r.gasLeft, u.current.refund);
    (Pay(u, m, used, left, env.coinbase), Wrap(pool - m.gas + left), Applied(used, left, r.err))
  }

  /** Checks the message against the rules, then executes it; a rejected message changes no
      state: whatever had been charged is rolled back. */
  function Apply(b: Block, m: Message, env: Env): (Block, Executed) {
    var s := Step(b.state, Snapshot);
    var why := Violation(s, b.gasPool, m, env.forks);
    if why.Some? then
      (b.(state := s, gasPool := PoolAfterRejection(b.gasPool, m, why.value)), Rejected(why.value))
    else
      var (t, pool, e) := Execute(Charged(s, m), b.gasPool, m, env);
      (b.(state := t, gasPool := pool), e)
  }

  // ---------- Receipts ----------

  function ContractOf(m: Message): Option<Address> {
    if m.to.None? then Some(m.created) else None
  }

  function Write(b: Block, m: Message, env: Env): (Block, Executed) {
    var (c, e) := Apply(b, m, env);
    if e.Rejected? then (c, e) else
      var total := Wrap(c.totalGas + e.gasUsed);
      var receipt := Receipt(m.hash, total, e.gasUsed, e.failed, LogsOf(c.state), ContractOf(m));
      (c.(state := Step(Step(c.state, TakeLogs), Clean(true)), totalGas := total, receipts := c.receipts + [receipt]), e)
  }

  function WriteFailedReceipt(b: Block, m: Message): Block {
    var receipt := Receipt(m.hash, b.totalGas, 0, true, LogsOf(b.state), ContractOf(m));
    b.(state := Step(b.state, TakeLogs), receipts := b.receipts + [receipt])
  }

  function BeginBlock(base: Base, gasLimit: uint64): Block {
    Block(Begin(base), gasLimit, 0, [])
  }

  /** A transaction above the block's limit only gets a failed receipt; a rejected one ends
      the processing. */
  function ProcessOne(b: Block, m: Message, limit: uint64, env: Env): (Block, bool) {
    if m.gas > limit then (WriteFailedReceipt(b, m), true) else
      var (c, e) := Write(b, m, env);
      (c, e.Applied?)
  }

  function Process(b: Block, msgs: seq<Message>, limit: uint64, env: Env): (Block, bool) {
    if msgs == [] then (b, true) else
      var n := |msgs| - 1;
      var (c, ok) := Process(b, msgs[..n], limit, env);
      if ok then ProcessOne(c, msgs[n], limit, env) else (c, false)
  }

  // ---------- Gas ----------

  /** The runtime returns no more gas than the frame was given. */
  predicate RunIsMetered(m: Message, f: Forks) {
    m.outcome.gasLeft <= m.gas - IntrinsicGas(m, f) || m.gas < IntrinsicGas(m, f)
  }

  lemma TopGas(s: TxnState, m: Message, gas: uint64, f: Forks)
    requires m.outcome.gasLeft <= gas
    ensures RunTop(s, m, gas, f).1.gasLeft <= gas
  {
  }

  lemma SettleSplits(gas: uint64, left: uint64, refund: uint64)
    requires left <= gas
    ensures var (used, left') := Settle(gas, left, refund);
            && used + left' == gas && left <= left' && 2 * (left' - left) <= gas - left
            && (left' - left == refund || (left' - left < refund && gas - left <= 2 * (left' - left) + 1))
  {
  }
}
