/** The executor as it runs: a `Transition` drives the in-memory overlay, takes and reverts
    snapshots around every frame, and keeps the gas pool, the gas total and the receipts of
    its block (state/executor.go). */
module TransitionHeap {
  import opened Wrappers
  import opened Words
  import opened WorldState
  import opened Executor
  import opened BlockExec
  import opened TxnHeap

  lemma PoolGetsBack(pool: uint64, gas: uint64, left: uint64)
    ensures Wrap(Wrap(pool + gas) - gas + left) == Wrap(pool + left)
  {
    WrapOfWrap(pool + gas, left - gas);
  }

  class Transition {
    const env: Env
    const state: Txn
    var gasPool: uint64
    var totalGas: uint64
    var receipts: seq<Receipt>

    /** The block as a value. */
    ghost function Value(): Block
      reads this, state
    {
      Block(state.model, gasPool, totalGas, receipts)
    }

    constructor (base: Base, gasLimit: uint64, env: Env)
      ensures state.Valid() && fresh(state) && this.env == env
      ensures Value() == BeginBlock(base, gasLimit)
    {
      this.env := env;
      state := new Txn(base);
      gasPool, totalGas, receipts := gasLimit, 0, [];
    }

    // ---------- Frames ----------

    method DoTransfer(from: Address, to: Address, value: Option<nat>) returns (ok: bool)
      requires state.Valid()
      modifies state
      ensures state.Valid()
      ensures ok == CanPay(old(state.model), from, value)
      ensures state.model == if ok then Transfer(old(state.model), from, to, value) else old(state.model)
    {
      hide state.Valid;
      if value.None? {
        return true;
      }
      ok := state.SubBalance(from, value.value);
      if ok {
        state.AddBalance(to, value.value);
      }
    }

    method DoSelfdestruct(a: Address, beneficiary: Address)
      requires state.Valid()
      modifies state
      ensures state.Valid() && state.model == Destroy(old(state.model), a, beneficiary)
    {
      var suicided := state.HasSuicided(a);
      if !suicided {
        state.AddRefund(24000);
      }
      var x := state.GetBalance(a);
      state.AddBalance(beneficiary, x);
      var _ := state.Suicide(a);
    }

    /** What the runtime does with its host. */
    method RunHost(ops: seq<HostOp>)
      requires state.Valid()
      modifies state
      ensures state.Valid() && state.model == RunOps(old(state.model), ops, env.forks)
      decreases ops, 0
    {
      if ops != [] {
        DoHostOp(ops[0]);
        RunHost(ops[1..]);
      }
    }

    method DoHostOp(op: HostOp)
      requires state.Valid()
      modifies state
      ensures state.Valid() && state.model == HostStep(old(state.model), op, env.forks)
      decreases op, 0
    {
      match op
      case Store(a, k, v) => var _ := state.SetStorage(a, k, v, env.forks);
      case Emit(l) => state.EmitLog(l);
      case Selfdestruct(a, b) => DoSelfdestruct(a, b);
      case Callx(fr) =>
        if fr.kind.Create? {
          var _ := DoApplyCreate(fr);
        } else {
          var _ := DoApplyCall(fr);
        }
    }

    method DoApplyCall(fr: Frame) returns (r: Result)
      requires state.Valid()
      modifies state
      ensures state.Valid() && (state.model, r) == ApplyCall(old(state.model), fr, env.forks)
      decreases fr, 1
    {
      hide state.Valid;
      if fr.depth > 1024 + 1 {
        return Result(true, fr.gas, []);
      }
      var id := state.TakeSnapshot();
      state.TouchAccount(fr.address);
      if fr.kind.Call? {
        var ok := DoTransfer(fr.caller, fr.address, fr.value);
        if !ok {
          return Result(true, fr.gas, []);
        }
      }
      RunHost(fr.ops);
      r := fr.outcome;
      if r.err {
        state.RevertToSnapshot(id);
      }
    }

    method DoApplyCreate(fr: Frame) returns (r: Result)
      requires state.Valid()
      modifies state
      ensures state.Valid() && (state.model, r) == ApplyCreate(old(state.model), fr, env.forks)
      decreases fr, 1
    {
      hide state.Valid, Step, Transfer, CanPay, FinishCreate;
      if fr.depth > 1024 + 1 {
        return Result(true, fr.gas, []);
      }
      state.IncrNonce(fr.caller);
      var nonce := state.GetNonce(fr.address);
      var code := state.GetCodeHash(fr.address);
      if nonce != 0 || code != [] {
        return Result(true, 0, []);
      }
      var id := DoEnterCreate(fr);
      var ok := DoTransfer(fr.caller, fr.address, fr.value);
      if !ok {
        return Result(true, fr.gas, []);
      }
      RunHost(fr.ops);
      r := Finish(id, fr);
    }

    method DoEnterCreate(fr: Frame) returns (id: nat)
      requires state.Valid()
      modifies state
      ensures state.Valid() && state.model == EnterCreate(old(state.model), fr, env.forks)
      ensures id == |old(state.model.snapshots)|
    {
      hide state.Valid;
      id := state.TakeSnapshot();
      if env.forks.eip158 {
        state.CreateAccount(fr.address);
        state.IncrNonce(fr.address);
      }
    }

    method Finish(id: nat, fr: Frame) returns (r: Result)
      requires state.Valid() && id < |state.model.snapshots|
      modifies state
      ensures state.Valid() && (state.model, r) == FinishCreate(old(state.model), id, fr, env.forks)
    {
      hide state.Valid;
      r := fr.outcome;
      if r.err {
        state.RevertToSnapshot(id);
        return;
      }
      if env.forks.eip158 && |r.ret| > 24576 {
        state.RevertToSnapshot(id);
        return Result(true, 0, []);
      }
      var gasCost := Wrap(|r.ret| * 200);
      if r.gasLeft < gasCost {
        if env.forks.homestead {
          state.RevertToSnapshot(id);
          return Result(true, 0, []);
        }
        return Result(true, r.gasLeft, []);
      }
      state.SetCode(fr.address, r.ret);
      r := Result(false, r.gasLeft - gasCost, r.ret);
    }

    // ---------- Messages ----------

    method SubGasPool(amount: uint64) returns (ok: bool)
      requires state.Valid()
      modifies this`gasPool
      ensures state.Valid()
      ensures ok <==> amount <= old(gasPool)
      ensures gasPool == old(gasPool) - if ok then amount else 0
    {
      ok := amount <= gasPool;
      if ok {
        gasPool := gasPool - amount;
      }
    }

    method AddGasPool(amount: uint64)
      requires state.Valid()
      modifies this`gasPool
      ensures state.Valid() && gasPool == Wrap(old(gasPool) + amount)
    {
      gasPool := Wrap(gasPool + amount);
    }

    /** Checks the rules in order and runs the message if it breaks none. */
    method ApplyMessage(m: Message) returns (e: Executed)
      requires state.Valid() && |m.input| < TWO_64
      modifies this, state
      ensures state.Valid()
      ensures totalGas == old(totalGas) && receipts == old(receipts)
      ensures var why := Violation(old(state.model), old(gasPool), m, env.forks);
              if why.Some? then
                && e == Rejected(why.value)
                && gasPool == PoolAfterRejection(old(gasPool), m, why.value)
                && (state.model == old(state.model) || state.model == Charged(old(state.model), m))
              else
                (state.model, gasPool, e) == Execute(Charged(old(state.model), m), old(gasPool), m, env)
    {
      hide state.Valid, RunTop, Settle, Pay, Step, IntrinsicGas;
      var nonce := state.GetNonce(m.from);
      if nonce != m.nonce {
        return Rejected(NonceIncorrect);
      }
      var paid := state.SubBalance(m.from, m.gasPrice * m.gas);
      if !paid {
        return Rejected(NotEnoughFundsForGas);
      }
      var taken := SubGasPool(m.gas);
      if !taken {
        return Rejected(BlockLimitReached);
      }
      var cost := IntrinsicCost(m);
      if cost.None? {
        return Rejected(IntrinsicGasOverflow);
      }
      var gasLeft := Wrap(m.gas - cost.value);
      if gasLeft > m.gas {
        return Rejected(NotEnoughIntrinsicGas);
      }
      var balance := state.GetBalance(m.from);
      if balance < m.value {
        return Rejected(NotEnoughFunds);
      }
      e := RunMessage(m, gasLeft);
    }

    /** The top frame, the refund, and the payments that follow. */
    method RunMessage(m: Message, gas: uint64) returns (e: Executed)
      requires state.Valid()
      requires m.gas >= IntrinsicGas(m, env.forks) && gas == m.gas - IntrinsicGas(m, env.forks)
      modifies this, state
      ensures state.Valid()
      ensures totalGas == old(totalGas) && receipts == old(receipts)
      ensures (state.model, gasPool, e) == Execute(old(state.model), Wrap(old(gasPool) + m.gas), m, env)
    {
      hide state.Valid, RunTop, Settle, Pay, Wrap, IntrinsicGas;
      var r := RunTopFrame(m, gas);
      var used, left := UpdateGasUsed(m.gas, r.gasLeft);
      PayOut(m, used, left);
      AddGasPool(left);
      PoolGetsBack(old(gasPool), m.gas, left);
      e := Applied(used, left, r.err);
    }

    method IntrinsicCost(m: Message) returns (r: Option<uint64>)
      requires state.Valid() && |m.input| < TWO_64
      ensures state.Valid()
      ensures r == if IntrinsicGas(m, env.forks) < TWO_64 then Some(IntrinsicGas(m, env.forks)) else None
    {
      r := TransactionGasCost(m, env.forks);
    }

    method RunTopFrame(m: Message, gas: uint64) returns (r: Result)
      requires state.Valid()
      modifies state
      ensures state.Valid() && (state.model, r) == RunTop(old(state.model), m, gas, env.forks)
    {
      hide state.Valid, ApplyCall, ApplyCreate, Step;
      if m.to.None? {
        r := DoApplyCreate(TopFrame(m, gas));
      } else {
        state.IncrNonce(m.from);
        r := DoApplyCall(TopFrame(m, gas));
      }
    }

    /** Refunds the sender, then pays the coinbase. */
    method PayOut(m: Message, used: uint64, left: uint64)
      requires state.Valid()
      modifies state
      ensures state.Valid() && state.model == Pay(old(state.model), m, used, left, env.coinbase)
    {
      hide state.Valid, Step;
      state.AddBalance(m.from, left * m.gasPrice);
      state.AddBalance(env.coinbase, used * m.gasPrice);
    }

    method UpdateGasUsed(gasLimit: uint64, gasLeft: uint64) returns (used: uint64, left: uint64)
      requires state.Valid()
      ensures state.Valid() && (used, left) == Settle(gasLimit, gasLeft, state.model.current.refund)
    {
      var refund := state.GetRefund();
      used := Wrap(gasLimit - gasLeft);
      var maxRefund := used / 2;
      if refund > maxRefund {
        refund := maxRefund;
      }
      left := Wrap(gasLeft + refund);
      used := Wrap(used - refund);
    }

    method DoApply(m: Message) returns (e: Executed)
      requires state.Valid() && |m.input| < TWO_64
      modifies this, state
      ensures state.Valid() && (Value(), e) == Apply(old(Value()), m, env)
    {
      hide state.Valid, Violation, Execute, Charged, PoolAfterRejection;
      var id := state.TakeSnapshot();
      e := ApplyMessage(m);
      if e.Rejected? {
        state.RevertToSnapshot(id);
      }
    }

    method DoWrite(m: Message) returns (e: Executed)
      requires state.Valid() && |m.input| < TWO_64
      modifies this, state
      ensures state.Valid() && (Value(), e) == Write(old(Value()), m, env)
    {
      hide Apply, Step;
      e := DoApply(m);
      if e.Rejected? {
        return;
      }
      totalGas := Wrap(totalGas + e.gasUsed);
      var logs := state.Logs();
      state.CleanDeleteObjects(true);
      receipts := receipts + [Receipt(m.hash, totalGas, e.gasUsed, e.failed, logs, ContractOf(m))];
    }

    method DoWriteFailedReceipt(m: Message)
      requires state.Valid()
      modifies this, state
      ensures state.Valid() && Value() == WriteFailedReceipt(old(Value()), m)
    {
      hide Step;
      var logs := state.Logs();
      receipts := receipts + [Receipt(m.hash, totalGas, 0, true, logs, ContractOf(m))];
    }

    /** All transactions of a block in order; the first that is rejected ends it. */
    method ProcessBlock(msgs: seq<Message>, limit: uint64) returns (ok: bool)
      requires state.Valid() && forall m :: m in msgs ==> |m.input| < TWO_64
      modifies this, state
      ensures state.Valid() && (Value(), ok) == Process(old(Value()), msgs, limit, env)
    {
      hide state.Valid, Write, WriteFailedReceipt;
      for i := 0 to |msgs|
        invariant state.Valid() && (Value(), true) == Process(old(Value()), msgs[..i], limit, env)
      {
        assert msgs[..i + 1][..i] == msgs[..i];
        if msgs[i].gas > limit {
          DoWriteFailedReceipt(msgs[i]);
        } else {
          var e := DoWrite(msgs[i]);
          if e.Rejected? {
            StoppedStays(old(Value()), msgs, limit, env, i + 1);
            return false;
          }
        }
      }
      assert msgs[..|msgs|] == msgs;
      ok := true;
    }
  }

  lemma {:induction false} StoppedStays(b: Block, msgs: seq<Message>, limit: uint64, env: Env, k: nat)
    requires k <= |msgs| && !Process(b, msgs[..k], limit, env).1
    ensures Process(b, msgs, limit, env) == Process(b, msgs[..k], limit, env)
    decreases |msgs| - k
  {
    hide ProcessOne;
    if k == |msgs| {
      assert msgs[..k] == msgs;
    } else {
      assert msgs[..k + 1][..k] == msgs[..k];
      StoppedStays(b, msgs, limit, env, k + 1);
    }
  }
}
