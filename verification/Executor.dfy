/** Execution of call and create frames over the world state (state/executor.go).

    What a contract does is an arbitrary finite tree of calls to the host: storage writes,
    logs, self-destructs and further frames, followed by an arbitrary result. */
module Executor {
  import opened Wrappers
  import opened Words
  import opened WorldState
  import opened Sstore

  datatype CallType = Call | CallCode | DelegateCall | StaticCall | Create

  datatype Result = Result(err: bool, gasLeft: uint64, ret: Code)

  /** A frame to run, with what its code does: `ops`, then `outcome`. */
  datatype Frame = Frame(
    kind: CallType, caller: Address, address: Address, value: Option<nat>, gas: uint64, depth: nat,
    ops: seq<HostOp>, outcome: Result)

  datatype HostOp =
    | Store(addr: Address, key: Key, value: Word)
    | Emit(log: Log)
    | Selfdestruct(addr: Address, beneficiary: Address)
    | Callx(frame: Frame)

  const MAX_DEPTH := 1025
  const MAX_CODE_SIZE := 24576
  const CODE_BYTE_GAS := 200
  const DESTROY_REFUND: uint64 := 24000

  predicate CanPay(s: TxnState, from: Address, value: Option<nat>) {
    value.Some? ==> value.value <= Balance(s, from)
  }

  /** Moves `value`, if there is one, which `from` can pay. */
  function Transfer(s: TxnState, from: Address, to: Address, value: Option<nat>): (t: TxnState)
    ensures t.snapshots == s.snapshots && t.base == s.base
  {
    if value.None? then s else Step(Step(s, SubBalance(from, value.value)), AddBalance(to, value.value))
  }

  function Destroy(s: TxnState, a: Address, beneficiary: Address): TxnState {
    var t := if HasSuicided(s, a) then s else Step(s, AddRefund(DESTROY_REFUND));
    Step(Step(t, AddBalance(beneficiary, Balance(t, a))), Suicide(a))
  }

  predicate HasCodeOrNonce(s: TxnState, a: Address) {
    Nonce(s, a) != 0 || CodeAt(s, a) != []
  }

  function HostStep(s: TxnState, op: HostOp, f: Forks): (t: TxnState)
    ensures s.snapshots <= t.snapshots && t.base == s.base
    decreases op, 0
  {
    match op
    case Store(a, k, v) => SetStorage(s, a, k, v, f)
    case Emit(l) => Step(s, EmitLog(l))
    case Selfdestruct(a, b) => Destroy(s, a, b)
    case Callx(fr) => if fr.kind.Create? then ApplyCreate(s, fr, f).0 else ApplyCall(s, fr, f).0
  }

  function RunOps(s: TxnState, ops: seq<HostOp>, f: Forks): (t: TxnState)
    ensures s.snapshots <= t.snapshots && t.base == s.base
    decreases ops, 0
  {
    if ops == [] then s else RunOps(HostStep(s, ops[0], f), ops[1..], f)
  }

  /** The state a call frame runs in: snapshot taken, account touched, value moved. */
  function EnterCall(s: TxnState, fr: Frame): (t: TxnState)
    ensures t.snapshots == s.snapshots + [s.current] && t.base == s.base
  {
    var t := Step(Step(s, Snapshot), Touch(fr.address));
    if fr.kind.Call? then Transfer(t, fr.caller, fr.address, fr.value) else t
  }

  predicate CallPayable(s: TxnState, fr: Frame) {
    fr.kind.Call? ==> CanPay(Step(Step(s, Snapshot), Touch(fr.address)), fr.caller, fr.value)
  }

  function ApplyCall(s: TxnState, fr: Frame, f: Forks): (r: (TxnState, Result))
    ensures s.snapshots <= r.0.snapshots && r.0.base == s.base
    decreases fr, 1
  {
    if fr.depth > MAX_DEPTH then
      (s, Result(true, fr.gas, []))
    else if !CallPayable(s, fr) then
      (Step(Step(s, Snapshot), Touch(fr.address)), Result(true, fr.gas, []))
    else
      var t := RunOps(EnterCall(s, fr), fr.ops, f);
      (if fr.outcome.err then Step(t, Revert(|s.snapshots|)) else t, fr.outcome)
  }

  /** A fresh contract account, on top of a snapshot. */
  function EnterCreate(s: TxnState, fr: Frame, f: Forks): (t: TxnState)
    ensures t.snapshots == s.snapshots + [s.current] && t.base == s.base
  {
    var t := Step(s, Snapshot);
    if f.eip158 then Step(Step(t, CreateAccount(fr.address)), IncrNonce(fr.address)) else t
  }

  function CodeGas(ret: Code): uint64 {
    Wrap(|ret| * CODE_BYTE_GAS)
  }

  function ApplyCreate(s: TxnState, fr: Frame, f: Forks): (r: (TxnState, Result))
    ensures s.snapshots <= r.0.snapshots && r.0.base == s.base
    decreases fr, 1
  {
    if fr.depth > MAX_DEPTH then
      (s, Result(true, fr.gas, []))
    else
      var n := Step(s, IncrNonce(fr.caller));
      if HasCodeOrNonce(n, fr.address) then
        (n, Result(true, 0, []))
      else
        var c := EnterCreate(n, fr, f);
        if !CanPay(c, fr.caller, fr.value) then
          (c, Result(true, fr.gas, []))
        else
          var t := RunOps(Transfer(c, fr.caller, fr.address, fr.value), fr.ops, f);
          FinishCreate(t, |n.snapshots|, fr, f)
  }

  /** Keeps or rolls back a creation once its init code has run. */
  function FinishCreate(t: TxnState, id: nat, fr: Frame, f: Forks): (r: (TxnState, Result))
    requires id < |t.snapshots|
    ensures r.0.snapshots == t.snapshots && r.0.base == t.base
  {
    var o := fr.outcome;
    if o.err then
      (Step(t, Revert(id)), o)
    else if f.eip158 && |o.ret| > MAX_CODE_SIZE then
      (Step(t, Revert(id)), Result(true, 0, []))
    else if o.gasLeft < CodeGas(o.ret) then
      if f.homestead then (Step(t, Revert(id)), Result(true, 0, [])) else (t, Result(true, o.gasLeft, []))
    else
      (Step(t, SetCode(fr.address, o.ret)), Result(false, o.gasLeft - CodeGas(o.ret), o.ret))
  }
}
