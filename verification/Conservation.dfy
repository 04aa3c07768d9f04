/** Where the money goes: the sum of all balances over whole call trees. */
module Conservation {
  import opened Wrappers
  import opened Words
  import opened WorldState
  import opened PlainState
  import opened Sstore
  import opened Executor
  import Sums

  function Balances(p: Accounts): map<Address, int> {
    map a | a in p :: p[a].balance
  }

  /** The sum of all balances. */
  ghost function Total(p: Accounts): int {
    Sums.Sum(Balances(p))
  }

  ghost function TotalOf(s: TxnState): int {
    Total(View(s))
  }

  lemma TotalPut(p: Accounts, a: Address, acc: PlainAccount)
    ensures Total(p[a := acc]) == Total(p) - At(p, a).balance + acc.balance
  {
    Sums.SumUpdate(Balances(p), a, acc.balance);
    assert Balances(p[a := acc]) == Balances(p)[a := acc.balance];
  }

  /** How a single operation changes the sum. */
  function Delta(s: TxnState, op: Op): int {
    match op
    case AddBalance(_, x) => x as int
    case SubBalance(a, x) => if x <= Balance(s, a) then 0 - x else 0
    case SetBalance(a, x) => x - Balance(s, a)
    case AddSealingReward(a, x) => if HasSuicided(s, a) then x - Balance(s, a) else x
    case Suicide(a) => 0 - Balance(s, a)
    case _ => 0
  }

  lemma TotalAfter(s: TxnState, op: Op)
    requires OnAccount(op)
    ensures TotalOf(Step(s, op)) == TotalOf(s) + Delta(s, op)
  {
    AccountStepView(s, op);
    ViewAt(s, op.addr);
    if !Skipped(s, op) {
      TotalPut(View(s), op.addr, PlainEdit(At(View(s), op.addr), op));
    }
  }

  lemma TotalUnchanged(s: TxnState, op: Op)
    requires op.EmitLog? || op.TakeLogs? || op.AddRefund? || op.SubRefund? || op.Snapshot?
    ensures View(Step(s, op)) == View(s)
  {
  }

  // ---------- Amounts burned ----------

  /** A contract that names itself as beneficiary burns what it holds. */
  function Burned(s: TxnState, op: HostOp, f: Forks): nat
    decreases op, 0
  {
    match op
    case Store(_, _, _) => 0
    case Emit(_) => 0
    case Selfdestruct(a, b) => if a == b then Balance(s, a) else 0
    case Callx(fr) => if fr.kind.Create? then BurnedCreate(s, fr, f) else BurnedCall(s, fr, f)
  }

  function BurnedOps(s: TxnState, ops: seq<HostOp>, f: Forks): nat
    decreases ops, 0
  {
    if ops == [] then 0 else Burned(s, ops[0], f) + BurnedOps(HostStep(s, ops[0], f), ops[1..], f)
  }

  /** Burned by a call frame: nothing if the frame is rolled back. */
  function BurnedCall(s: TxnState, fr: Frame, f: Forks): nat
    decreases fr, 1
  {
    if fr.depth > MAX_DEPTH || !CallPayable(s, fr) || fr.outcome.err then 0
    else BurnedOps(EnterCall(s, fr), fr.ops, f)
  }

  predicate CreateKept(fr: Frame, f: Forks) {
    && !fr.outcome.err
    && !(f.eip158 && |fr.outcome.ret| > MAX_CODE_SIZE)
    && !(f.homestead && fr.outcome.gasLeft < CodeGas(fr.outcome.ret))
  }

  function BurnedCreate(s: TxnState, fr: Frame, f: Forks): nat
    decreases fr, 1
  {
    if fr.depth > MAX_DEPTH then 0 else
      var n := Step(s, IncrNonce(fr.caller));
      if HasCodeOrNonce(n, fr.address) then 0 else
        var c := EnterCreate(n, fr, f);
        if !CanPay(c, fr.caller, fr.value) || !CreateKept(fr, f) then 0
        else BurnedOps(Transfer(c, fr.caller, fr.address, fr.value), fr.ops, f)
  }

  // ---------- Conservation ----------

  lemma TransferConserves(s: TxnState, from: Address, to: Address, value: Option<nat>)
    requires CanPay(s, from, value)
    ensures TotalOf(Transfer(s, from, to, value)) == TotalOf(s)
  {
    if value.Some? {
      var t := Step(s, SubBalance(from, value.value));
      TotalAfter(s, SubBalance(from, value.value));
      TotalAfter(t, AddBalance(to, value.value));
    }
  }

  lemma BalanceAfterAdd(s: TxnState, b: Address, x: nat, a: Address)
    ensures Balance(Step(s, AddBalance(b, x)), a) == Balance(s, a) + if a == b then x else 0
  {
  }

  lemma RefundLeavesBalances(s: TxnState, g: uint64, a: Address)
    ensures Balance(Step(s, AddRefund(g)), a) == Balance(s, a)
    ensures TotalOf(Step(s, AddRefund(g))) == TotalOf(s)
  {
    TotalUnchanged(s, AddRefund(g));
  }

  lemma DestroyBurns(s: TxnState, a: Address, b: Address)
    ensures TotalOf(Destroy(s, a, b)) == TotalOf(s) - if a == b then Balance(s, a) else 0
  {
    hide Step, TotalOf, Balance, HasSuicided;
    RefundLeavesBalances(s, DESTROY_REFUND, a);
    var t := if HasSuicided(s, a) then s else Step(s, AddRefund(DESTROY_REFUND));
    var x := Balance(t, a);
    TotalAfter(t, AddBalance(b, x));
    TotalAfter(Step(t, AddBalance(b, x)), Suicide(a));
    BalanceAfterAdd(t, b, x, a);
  }

  lemma StoreConserves(s: TxnState, a: Address, k: Key, v: Word, f: Forks)
    ensures TotalOf(SetStorage(s, a, k, v, f)) == TotalOf(s)
  {
    var t := Step(s, SetState(a, k, v));
    TotalAfter(s, SetState(a, k, v));
    assert forall r :: View(WithRefund(t, r)) == View(t);
  }

  /** Going back to the snapshot taken in `s` brings back the sum of `s`. */
  lemma RevertedTotal(s: TxnState, t: TxnState)
    requires Saved(s, t)
    ensures TotalOf(Step(t, Revert(|s.snapshots|))) == TotalOf(s)
  {
    hide Total, View;
    SameView(s, Step(t, Revert(|s.snapshots|)));
  }

  lemma SameView(s: TxnState, t: TxnState)
    requires t.base == s.base && t.current == s.current
    ensures View(s) == View(t)
  {
  }

  /** `t` still holds the snapshot that was taken in `s`. */
  predicate Saved(s: TxnState, t: TxnState) {
    |s.snapshots| < |t.snapshots| && t.snapshots[|s.snapshots|] == s.current && t.base == s.base
  }

  lemma TouchConserves(s: TxnState, a: Address)
    ensures TotalOf(Step(Step(s, Snapshot), Touch(a))) == TotalOf(s)
  {
    TotalUnchanged(s, Snapshot);
    TotalAfter(Step(s, Snapshot), Touch(a));
  }

  lemma EnterCallConserves(s: TxnState, fr: Frame)
    requires CallPayable(s, fr)
    ensures TotalOf(EnterCall(s, fr)) == TotalOf(s)
  {
    TouchConserves(s, fr.address);
    if fr.kind.Call? {
      TransferConserves(Step(Step(s, Snapshot), Touch(fr.address)), fr.caller, fr.address, fr.value);
    }
  }

  lemma EnterCreateConserves(s: TxnState, fr: Frame, f: Forks)
    ensures TotalOf(EnterCreate(s, fr, f)) == TotalOf(s)
  {
    hide Total, View, Step;
    var t := Step(s, Snapshot);
    TotalUnchanged(s, Snapshot);
    if f.eip158 {
      TotalAfter(t, CreateAccount(fr.address));
      TotalAfter(Step(t, CreateAccount(fr.address)), IncrNonce(fr.address));
    }
  }

  lemma {:induction false} HostStepConserves(s: TxnState, op: HostOp, f: Forks)
    ensures TotalOf(HostStep(s, op, f)) + Burned(s, op, f) == TotalOf(s)
    decreases op, 0
  {
    match op
    case Store(a, k, v) => StoreConserves(s, a, k, v, f);
    case Emit(l) => TotalUnchanged(s, EmitLog(l));
    case Selfdestruct(a, b) => DestroyBurns(s, a, b);
    case Callx(fr) =>
      if fr.kind.Create? {
        CreateConserves(s, fr, f);
      } else {
        CallConserves(s, fr, f);
      }
  }

  lemma {:induction false} OpsConserve(s: TxnState, ops: seq<HostOp>, f: Forks)
    ensures TotalOf(RunOps(s, ops, f)) + BurnedOps(s, ops, f) == TotalOf(s)
    decreases ops, 0
  {
    if ops != [] {
      HostStepConserves(s, ops[0], f);
      OpsConserve(HostStep(s, ops[0], f), ops[1..], f);
    }
  }

  /** Every call frame, whatever its code does at any depth and whichever inner frames fail,
      moves money without making any: the sum drops by exactly what was burned. */
  lemma {:induction false} CallConserves(s: TxnState, fr: Frame, f: Forks)
    ensures TotalOf(ApplyCall(s, fr, f).0) + BurnedCall(s, fr, f) == TotalOf(s)
    decreases fr, 1
  {
    hide Step, TotalOf, EnterCall, CallPayable;
    if fr.depth > MAX_DEPTH {
    } else if !CallPayable(s, fr) {
      TouchConserves(s, fr.address);
    } else {
      var t := RunOps(EnterCall(s, fr), fr.ops, f);
      EnterCallConserves(s, fr);
      OpsConserve(EnterCall(s, fr), fr.ops, f);
      RevertedTotal(s, t);
    }
  }

  lemma {:induction false} CreateConserves(s: TxnState, fr: Frame, f: Forks)
    ensures TotalOf(ApplyCreate(s, fr, f).0) + BurnedCreate(s, fr, f) == TotalOf(s)
    decreases fr, 1
  {
    hide Step, TotalOf, EnterCreate, FinishCreate, CanPay, HasCodeOrNonce, Transfer;
    if fr.depth <= MAX_DEPTH {
      var n := Step(s, IncrNonce(fr.caller));
      TotalAfter(s, IncrNonce(fr.caller));
      if !HasCodeOrNonce(n, fr.address) {
        var c := EnterCreate(n, fr, f);
        EnterCreateConserves(n, fr, f);
        if CanPay(c, fr.caller, fr.value) {
          var p := Transfer(c, fr.caller, fr.address, fr.value);
          TransferConserves(c, fr.caller, fr.address, fr.value);
          OpsConserve(p, fr.ops, f);
          FinishConserves(n, RunOps(p, fr.ops, f), fr, f);
        }
      }
    }
  }

  lemma FinishConserves(n: TxnState, t: TxnState, fr: Frame, f: Forks)
    requires Saved(n, t)
    ensures TotalOf(FinishCreate(t, |n.snapshots|, fr, f).0) == TotalOf(if CreateKept(fr, f) then t else n)
  {
    hide Step, TotalOf;
    RevertedTotal(n, t);
    TotalAfter(t, SetCode(fr.address, fr.outcome.ret));
  }

  // ---------- No burning, no loss ----------

  /** No contract anywhere in the tree names itself as its beneficiary. */
  predicate NoSelfBurn(op: HostOp)
    decreases op, 0
  {
    match op
    case Store(_, _, _) => true
    case Emit(_) => true
    case Selfdestruct(a, b) => a != b
    case Callx(fr) => NoSelfBurns(fr.ops)
  }

  predicate NoSelfBurns(ops: seq<HostOp>)
    decreases ops, 0
  {
    ops == [] || (NoSelfBurn(ops[0]) && NoSelfBurns(ops[1..]))
  }

  lemma {:induction false} NothingBurned(s: TxnState, op: HostOp, f: Forks)
    requires NoSelfBurn(op)
    ensures Burned(s, op, f) == 0
    decreases op, 0
  {
    if op.Callx? {
      var fr := op.frame;
      NothingBurnedAll(EnterCall(s, fr), fr.ops, f);
      var c := EnterCreate(Step(s, IncrNonce(fr.caller)), fr, f);
      NothingBurnedAll(Transfer(c, fr.caller, fr.address, fr.value), fr.ops, f);
    }
  }

  lemma {:induction false} NothingBurnedAll(s: TxnState, ops: seq<HostOp>, f: Forks)
    requires NoSelfBurns(ops)
    ensures BurnedOps(s, ops, f) == 0
    decreases ops, 0
  {
    if ops != [] {
      NothingBurned(s, ops[0], f);
      NothingBurnedAll(HostStep(s, ops[0], f), ops[1..], f);
    }
  }

  /** A contract that destroys itself in favour of itself does lose money. */
  lemma SelfBurnLoses(f: Forks)
    ensures var base: Base := map[1 := Account(0, 10, map[], [])];
            && TotalOf(Begin(base)) == 10
            && TotalOf(HostStep(Begin(base), Selfdestruct(1, 1), f)) == 0
  {
    var base: Base := map[1 := Account(0, 10, map[], [])];
    var s := Begin(base);
    var empty: Accounts := map[];
    ViewAt(s, 1);
    assert View(s) == empty[1 := At(View(s), 1)];
    TotalPut(empty, 1, At(View(s), 1));
    assert Total(empty) == 0;
    DestroyBurns(s, 1, 1);
  }
}
