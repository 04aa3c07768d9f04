/** Who is paid, what is installed and what is written: the answers of transfers and frames,
    address by address (state/executor.go). */
module Payments {
  import opened Wrappers
  import opened Words
  import opened WorldState
  import opened Sstore
  import opened Executor
  import opened Rollback

  // ---------- Reads after a step ----------

  lemma NeverDeleted(s: TxnState, x: Address)
    ensures !GetOrFresh(s, x).deleted
  {
  }

  /** An account operation edits the object at its address, and nothing else. */
  lemma ObjectAfter(s: TxnState, op: Op, x: Address)
    requires OnAccount(op)
    ensures GetOrFresh(Step(s, op), x) ==
            if x == op.addr && !Skipped(s, op) then Edit(GetOrFresh(s, x), op) else GetOrFresh(s, x)
  {
    NeverDeleted(s, op.addr);
    if !Skipped(s, op) {
      assert !Edit(GetOrFresh(s, op.addr), op).deleted;
    }
  }

  /** Nonce, code, storage and suicide mark of `x` are the same. */
  ghost predicate SameButBalance(s: TxnState, t: TxnState, x: Address) {
    && Nonce(t, x) == Nonce(s, x) && CodeAt(t, x) == CodeAt(s, x) && HasSuicided(t, x) == HasSuicided(s, x)
    && forall k :: State(t, x, k) == State(s, x, k) && CommittedState(t, x, k) == CommittedState(s, x, k)
  }

  lemma AddPays(s: TxnState, a: Address, v: nat, x: Address)
    ensures Balance(Step(s, AddBalance(a, v)), x) == Balance(s, x) + if x == a then v else 0
    ensures SameButBalance(s, Step(s, AddBalance(a, v)), x)
  {
    ObjectAfter(s, AddBalance(a, v), x);
    hide Step;
  }

  lemma SubPays(s: TxnState, a: Address, v: nat, x: Address)
    requires v <= Balance(s, a)
    ensures Balance(Step(s, SubBalance(a, v)), x) == Balance(s, x) - if x == a then v else 0
    ensures SameButBalance(s, Step(s, SubBalance(a, v)), x)
  {
    ObjectAfter(s, SubBalance(a, v), x);
    hide Step;
  }

  /** The amount `x` gains when `v` goes from `from` to `to`. */
  function Gain(from: Address, to: Address, v: nat, x: Address): int {
    (if x == to then v else 0) - (if x == from then v else 0)
  }

  function Amount(value: Option<nat>): nat {
    if value.Some? then value.value else 0
  }

  /** A transfer moves its value from the payer to the payee and touches nothing else. */
  lemma TransferMoves(s: TxnState, from: Address, to: Address, value: Option<nat>, x: Address)
    requires CanPay(s, from, value)
    ensures Balance(Transfer(s, from, to, value), x) == Balance(s, x) + Gain(from, to, Amount(value), x)
    ensures SameButBalance(s, Transfer(s, from, to, value), x)
  {
    hide Step;
    if value.Some? {
      SubPays(s, from, value.value, x);
      AddPays(Step(s, SubBalance(from, value.value)), to, value.value, x);
    }
  }

  // ---------- Host operations ----------

  lemma SnapshotReads(s: TxnState, x: Address)
    ensures GetOrFresh(Step(s, Snapshot), x) == GetOrFresh(s, x)
  {
  }

  lemma TouchKeeps(s: TxnState, a: Address, x: Address)
    ensures GetOrFresh(Step(s, Touch(a)), x) == GetOrFresh(s, x)
  {
    ObjectAfter(s, Touch(a), x);
  }

  /** A storage write changes its slot, and nothing else of any account. */
  lemma StoreWrites(s: TxnState, a: Address, k: Key, v: Word, f: Forks, x: Address, j: Key)
    ensures var t := SetStorage(s, a, k, v, f);
            && State(t, x, j) == (if x == a && j == k then v else State(s, x, j))
            && CommittedState(t, x, j) == CommittedState(s, x, j)
            && Balance(t, x) == Balance(s, x) && Nonce(t, x) == Nonce(s, x) && CodeAt(t, x) == CodeAt(s, x)
            && HasSuicided(t, x) == HasSuicided(s, x)
  {
    ObjectAfter(s, SetState(a, k, v), x);
    RefundReads(Step(s, SetState(a, k, v)),
                Wrap(s.current.refund + RefundDelta(CommittedState(s, a, k), State(s, a, k), v, f)), x);
    hide Step, RefundDelta;
  }

  lemma RefundReads(s: TxnState, r: uint64, x: Address)
    ensures GetOrFresh(WithRefund(s, r), x) == GetOrFresh(s, x)
  {
  }

  lemma RefundKeeps(s: TxnState, r: uint64, x: Address)
    ensures var t := Step(s, AddRefund(r));
            Get(t, x) == Get(s, x) && t.current.refund == Wrap(s.current.refund + r)
  {
  }

  lemma EditKeeps(s: TxnState, op: Op, x: Address)
    requires OnAccount(op)
    ensures var t := Step(s, op);
            && (Get(t, x).Some? <==> Get(s, x).Some? || (x == op.addr && !Skipped(s, op)))
            && t.current.refund == s.current.refund
  {
    NeverDeleted(s, op.addr);
    if !Skipped(s, op) {
      assert !Edit(GetOrFresh(s, op.addr), op).deleted;
    }
  }

  /** A self-destruct sends everything to the beneficiary; named itself, it burns it. The
      account is marked if it exists, and the refund granted the first time. */
  lemma DestroyPays(s: TxnState, a: Address, b: Address, x: Address)
    ensures var t := Destroy(s, a, b);
            && Balance(t, x) == (if x == a then 0 else Balance(s, x) + if x == b then Balance(s, a) else 0)
            && HasSuicided(t, x) == (HasSuicided(s, x) || (x == a && (Get(s, a).Some? || b == a)))
            && Nonce(t, x) == Nonce(s, x) && CodeAt(t, x) == CodeAt(s, x)
            && t.current.refund == (if HasSuicided(s, a) then s.current.refund else Wrap(s.current.refund + 24000))
  {
    var u := if HasSuicided(s, a) then s else Step(s, AddRefund(DESTROY_REFUND));
    RefundKeeps(s, DESTROY_REFUND, a);
    RefundKeeps(s, DESTROY_REFUND, b);
    RefundKeeps(s, DESTROY_REFUND, x);
    var pay := AddBalance(b, Balance(u, a));
    var w := Step(u, pay);
    ObjectAfter(u, pay, x);
    EditKeeps(u, pay, a);
    ObjectAfter(w, Suicide(a), x);
    EditKeeps(w, Suicide(a), a);
    hide Step;
  }

  // ---------- Frames whose code only writes storage and emits logs ----------

  predicate Quiet(ops: seq<HostOp>) {
    forall i :: 0 <= i < |ops| ==> ops[i].Store? || ops[i].Emit?
  }

  /** What the last write of the slot leaves. */
  function Written(ops: seq<HostOp>, a: Address, k: Key, before: Word): Word {
    if ops == [] then before else
      Written(ops[1..], a, k, if ops[0].Store? && ops[0].addr == a && ops[0].key == k then ops[0].value else before)
  }

  /** The logs, in order. */
  function Emitted(ops: seq<HostOp>): seq<Log> {
    if ops == [] then [] else (if ops[0].Emit? then [ops[0].log] else []) + Emitted(ops[1..])
  }

  /** The accounts at `x` read the same but for the slots that were written. */
  ghost predicate Wrote(s: TxnState, t: TxnState, ops: seq<HostOp>, x: Address) {
    && Balance(t, x) == Balance(s, x) && Nonce(t, x) == Nonce(s, x) && CodeAt(t, x) == CodeAt(s, x)
    && HasSuicided(t, x) == HasSuicided(s, x)
    && forall k :: State(t, x, k) == Written(ops, x, k, State(s, x, k))
  }

  lemma StepWrote(s: TxnState, op: HostOp, f: Forks, x: Address)
    requires op.Store? || op.Emit?
    ensures Wrote(s, HostStep(s, op, f), [op], x)
  {
    var t := HostStep(s, op, f);
    assert [op][1..] == [];
    if op.Emit? {
      assert GetOrFresh(t, x) == GetOrFresh(s, x);
    } else {
      StoreWrites(s, op.addr, op.key, op.value, f, x, op.key);
      forall k ensures State(t, x, k) == Written([op], x, k, State(s, x, k)) {
        StoreWrites(s, op.addr, op.key, op.value, f, x, k);
      }
    }
  }

  /** A quiet run of code leaves every account as it was, but for the slots it wrote last. */
  lemma {:induction false} QuietRunWrites(s: TxnState, ops: seq<HostOp>, f: Forks, x: Address)
    requires Quiet(ops)
    ensures Wrote(s, RunOps(s, ops, f), ops, x)
    decreases |ops|
  {
    hide HostStep;
    if ops != [] {
      var t := HostStep(s, ops[0], f);
      StepWrote(s, ops[0], f, x);
      QuietRunWrites(t, ops[1..], f, x);
      var u := RunOps(t, ops[1..], f);
      assert [ops[0]][1..] == [];
      forall k ensures State(u, x, k) == Written(ops, x, k, State(s, x, k)) {
        var op, before := ops[0], State(s, x, k);
        var mid := if op.Store? && op.addr == x && op.key == k then op.value else before;
        assert Written([op], x, k, before) == Written([op][1..], x, k, mid) == mid;
        assert State(t, x, k) == mid;
        assert State(u, x, k) == Written(ops[1..], x, k, mid);
      }
    }
  }

  /** The state in which the code of a call runs: the value moved, if it is a plain call. */
  function Moved(fr: Frame): nat {
    if fr.kind.Call? then Amount(fr.value) else 0
  }

  lemma EnterCallMoves(s: TxnState, fr: Frame, x: Address)
    requires CallPayable(s, fr)
    ensures Balance(EnterCall(s, fr), x) == Balance(s, x) + Gain(fr.caller, fr.address, Moved(fr), x)
    ensures SameButBalance(s, EnterCall(s, fr), x)
  {
    var t := Step(s, Snapshot);
    SnapshotReads(s, x);
    TouchKeeps(t, fr.address, x);
    var u := Step(t, Touch(fr.address));
    hide Step, Transfer;
    if fr.kind.Call? {
      TransferMoves(u, fr.caller, fr.address, fr.value, x);
    }
  }

  lemma CallPayableIff(s: TxnState, fr: Frame)
    ensures CallPayable(s, fr) <==> Moved(fr) <= Balance(s, fr.caller)
  {
    SnapshotReads(s, fr.caller);
    TouchKeeps(Step(s, Snapshot), fr.address, fr.caller);
  }

  /** When a call fails, and what it hands back. */
  lemma CallResult(s: TxnState, fr: Frame, f: Forks)
    ensures var r := ApplyCall(s, fr, f).1;
            var started := fr.depth <= 1025 && Moved(fr) <= Balance(s, fr.caller);
            if started then r == fr.outcome else r == Result(true, fr.gas, [])
  {
    CallPayableIff(s, fr);
  }

  /** A call that succeeds moves exactly its value from caller to callee, if it is a plain
      call, and nothing otherwise; its code's writes stay. */
  lemma CallMoves(s: TxnState, fr: Frame, f: Forks, x: Address)
    requires !ApplyCall(s, fr, f).1.err && Quiet(fr.ops)
    ensures var t := ApplyCall(s, fr, f).0;
            && Balance(t, x) == Balance(s, x) + Gain(fr.caller, fr.address, Moved(fr), x)
            && Nonce(t, x) == Nonce(s, x) && CodeAt(t, x) == CodeAt(s, x) && HasSuicided(t, x) == HasSuicided(s, x)
            && forall k :: State(t, x, k) == Written(fr.ops, x, k, State(s, x, k))
  {
    hide EnterCall, CallPayable, RunOps;
    EnterCallMoves(s, fr, x);
    QuietRunWrites(EnterCall(s, fr), fr.ops, f, x);
    var t := ApplyCall(s, fr, f).0;
    forall k ensures State(t, x, k) == Written(fr.ops, x, k, State(s, x, k)) {
    }
  }

  lemma HostTouches(s: TxnState, op: HostOp, f: Forks, x: Address)
    requires (op.Store? || op.Emit?) && x in s.current.objects
    ensures x in HostStep(s, op, f).current.objects
  {
    hide RefundDelta;
  }

  lemma {:induction false} QuietRunTouches(s: TxnState, ops: seq<HostOp>, f: Forks, x: Address)
    requires Quiet(ops) && x in s.current.objects
    ensures x in RunOps(s, ops, f).current.objects
    decreases |ops|
  {
    hide HostStep;
    if ops != [] {
      HostTouches(s, ops[0], f, x);
      QuietRunTouches(HostStep(s, ops[0], f), ops[1..], f, x);
    }
  }

  /** A call of any kind that succeeds has touched its address, moved value or not. */
  lemma CallTouches(s: TxnState, fr: Frame, f: Forks)
    requires !ApplyCall(s, fr, f).1.err && Quiet(fr.ops)
    ensures fr.address in ApplyCall(s, fr, f).0.current.objects
  {
    EnterTouches(s, fr);
    hide EnterCall, CallPayable, RunOps;
    QuietRunTouches(EnterCall(s, fr), fr.ops, f, fr.address);
  }

  lemma EnterTouches(s: TxnState, fr: Frame)
    ensures fr.address in EnterCall(s, fr).current.objects
  {
  }

  // ---------- Creations ----------

  /** The account a creation enters: its balance kept, and from EIP-158 on fresh with nonce 1. */
  lemma EnterCreateEnters(s: TxnState, fr: Frame, f: Forks, x: Address)
    ensures var t := EnterCreate(s, fr, f);
            && Balance(t, x) == Balance(s, x)
            && (x != fr.address || !f.eip158 ==> GetOrFresh(t, x) == GetOrFresh(s, x))
            && (x == fr.address && f.eip158 ==>
                  Nonce(t, x) == 1 && CodeAt(t, x) == [] && !HasSuicided(t, x) && forall k :: State(t, x, k) == 0)
  {
    var t := Step(s, Snapshot);
    SnapshotReads(s, x);
    if f.eip158 {
      ObjectAfter(t, CreateAccount(fr.address), x);
      ObjectAfter(Step(t, CreateAccount(fr.address)), IncrNonce(fr.address), x);
    }
  }

  lemma IncrOnly(s: TxnState, a: Address, x: Address)
    ensures var t := Step(s, IncrNonce(a));
            && Balance(t, x) == Balance(s, x) && CodeAt(t, x) == CodeAt(s, x) && HasSuicided(t, x) == HasSuicided(s, x)
            && Nonce(t, x) == (if x == a then Wrap(Nonce(s, x) + 1) else Nonce(s, x))
            && forall k :: State(t, x, k) == State(s, x, k)
  {
    ObjectAfter(s, IncrNonce(a), x);
    hide Step;
  }

  /** The address is free once the caller's nonce is counted up. */
  predicate Free(s: TxnState, fr: Frame) {
    !HasCodeOrNonce(Step(s, IncrNonce(fr.caller)), fr.address)
  }

  lemma FreeIff(s: TxnState, fr: Frame)
    requires fr.caller != fr.address
    ensures Free(s, fr) <==> Nonce(s, fr.address) == 0 && CodeAt(s, fr.address) == []
  {
    IncrOnly(s, fr.caller, fr.address);
    hide Step;
  }

  lemma CreatePayableIff(s: TxnState, fr: Frame, f: Forks)
    ensures CanPay(EnterCreate(Step(s, IncrNonce(fr.caller)), fr, f), fr.caller, fr.value) <==>
            Amount(fr.value) <= Balance(s, fr.caller)
  {
    IncrOnly(s, fr.caller, fr.caller);
    EnterCreateEnters(Step(s, IncrNonce(fr.caller)), fr, f, fr.caller);
    hide Step, EnterCreate;
  }

  /** When a creation fails, and what it hands back. */
  lemma CreateResult(s: TxnState, fr: Frame, f: Forks)
    ensures var r, o := ApplyCreate(s, fr, f).1, fr.outcome;
            var cost := Wrap(200 * |o.ret|);
            if fr.depth > 1025 then r == Result(true, fr.gas, [])
            else if !Free(s, fr) then r == Result(true, 0, [])
            else if Amount(fr.value) > Balance(s, fr.caller) then r == Result(true, fr.gas, [])
            else if o.err then r == o
            else if f.eip158 && |o.ret| > 24576 then r == Result(true, 0, [])
            else if o.gasLeft < cost then r == Result(true, if f.homestead then 0 else o.gasLeft, [])
            else r == Result(false, o.gasLeft - cost, o.ret)
  {
    CreatePayableIff(s, fr, f);
    hide EnterCreate, RunOps, Transfer, CanPay, HasCodeOrNonce, Step;
  }

  lemma WrapSmall(x: nat)
    requires x < TWO_64
    ensures Wrap(x) == x
  {
  }

  /** A creation that succeeds leaves the code its init code returned, whatever else that did,
      and takes 200 gas for each byte of it. */
  lemma CreateInstalls(s: TxnState, fr: Frame, f: Forks)
    requires !ApplyCreate(s, fr, f).1.err
    ensures var (t, r) := ApplyCreate(s, fr, f);
            && r.ret == fr.outcome.ret && CodeAt(t, fr.address) == r.ret
            && (200 * |r.ret| < TWO_64 ==> r.gasLeft + 200 * |r.ret| == fr.outcome.gasLeft)
            && (f.eip158 ==> |r.ret| <= 24576)
  {
    hide ApplyCreate, AfterInit, Step, Free, Balance, Wrap;
    CreateEnds(s, fr, f);
    CreateResult(s, fr, f);
    if 200 * |fr.outcome.ret| < TWO_64 {
      WrapSmall(200 * |fr.outcome.ret|);
    }
    ObjectAfter(AfterInit(s, fr, f), SetCode(fr.address, fr.outcome.ret), fr.address);
  }

  lemma CreateEnds(s: TxnState, fr: Frame, f: Forks)
    requires !ApplyCreate(s, fr, f).1.err
    ensures ApplyCreate(s, fr, f).0 == Step(AfterInit(s, fr, f), SetCode(fr.address, fr.outcome.ret))
  {
    hide EnterCreate, RunOps, Transfer, CanPay, HasCodeOrNonce, Step;
  }

  lemma AfterInitPays(s: TxnState, fr: Frame, f: Forks, x: Address)
    requires Quiet(fr.ops) && Amount(fr.value) <= Balance(s, fr.caller)
    ensures Balance(AfterInit(s, fr, f), x) == Balance(s, x) + Gain(fr.caller, fr.address, Amount(fr.value), x)
  {
    var n := Step(s, IncrNonce(fr.caller));
    var c := EnterCreate(n, fr, f);
    CreatePayableIff(s, fr, f);
    IncrOnly(s, fr.caller, x);
    EnterCreateEnters(n, fr, f, x);
    TransferMoves(c, fr.caller, fr.address, fr.value, x);
    QuietRunWrites(Transfer(c, fr.caller, fr.address, fr.value), fr.ops, f, x);
    hide Step, EnterCreate, Transfer, RunOps, CanPay;
  }

  lemma AfterInitReads(s: TxnState, fr: Frame, f: Forks, x: Address)
    requires Quiet(fr.ops) && fr.caller != fr.address && Amount(fr.value) <= Balance(s, fr.caller)
    ensures var t := AfterInit(s, fr, f);
            && Balance(t, x) == Balance(s, x) + Gain(fr.caller, fr.address, Amount(fr.value), x)
            && (x == fr.address && f.eip158 ==> Nonce(t, x) == 1)
            && (x == fr.address && f.eip158 ==> forall k :: State(t, x, k) == Written(fr.ops, x, k, 0))
            && (x != fr.address || !f.eip158 ==>
                  Nonce(t, x) == if x == fr.caller then Wrap(Nonce(s, x) + 1) else Nonce(s, x))
            && (x != fr.address || !f.eip158 ==> forall k :: State(t, x, k) == Written(fr.ops, x, k, State(s, x, k)))
            && (x != fr.address ==> CodeAt(t, x) == CodeAt(s, x))
  {
    var n := Step(s, IncrNonce(fr.caller));
    var c := EnterCreate(n, fr, f);
    CreatePayableIff(s, fr, f);
    IncrOnly(s, fr.caller, x);
    EnterCreateEnters(n, fr, f, x);
    TransferMoves(c, fr.caller, fr.address, fr.value, x);
    var p := Transfer(c, fr.caller, fr.address, fr.value);
    QuietRunWrites(p, fr.ops, f, x);
    hide Step, EnterCreate, Transfer, RunOps, CanPay;
  }

  /** And whose init code only wrote storage: the value has moved, the caller's nonce is one
      higher, from EIP-158 on the new account has nonce 1 and the storage that was written, and
      nothing else has changed. */
  lemma CreateMoves(s: TxnState, fr: Frame, f: Forks, x: Address)
    requires !ApplyCreate(s, fr, f).1.err && Quiet(fr.ops) && fr.caller != fr.address
    ensures var t := ApplyCreate(s, fr, f).0;
            && Balance(t, x) == Balance(s, x) + Gain(fr.caller, fr.address, Amount(fr.value), x)
            && (x == fr.address && f.eip158 ==> Nonce(t, x) == 1)
            && (x == fr.address && f.eip158 ==> forall k :: State(t, x, k) == Written(fr.ops, x, k, 0))
            && (x != fr.address || !f.eip158 ==>
                  Nonce(t, x) == if x == fr.caller then Wrap(Nonce(s, x) + 1) else Nonce(s, x))
            && (x != fr.address || !f.eip158 ==> forall k :: State(t, x, k) == Written(fr.ops, x, k, State(s, x, k)))
            && CodeAt(t, x) == (if x == fr.address then fr.outcome.ret else CodeAt(s, x))
  {
    hide ApplyCreate, AfterInit, Step, Free, Quiet;
    CreateEnds(s, fr, f);
    CreateResult(s, fr, f);
    AfterInitReads(s, fr, f, x);
    CodeSet(AfterInit(s, fr, f), fr.address, fr.outcome.ret, x);
    hide Balance, Nonce, State, CodeAt, Written, Gain, Wrap;
  }

  lemma CodeSet(s: TxnState, a: Address, code: Code, x: Address)
    ensures var t := Step(s, SetCode(a, code));
            && Balance(t, x) == Balance(s, x) && Nonce(t, x) == Nonce(s, x)
            && (forall k :: State(t, x, k) == State(s, x, k))
            && CodeAt(t, x) == if x == a then code else CodeAt(s, x)
  {
    ObjectAfter(s, SetCode(a, code), x);
    hide Step;
  }

  /** A frame that code calls is a creation or a call by its kind. */
  lemma HostFrames(s: TxnState, fr: Frame, f: Forks, x: Address)
    ensures fr.kind.Create? && !ApplyCreate(s, fr, f).1.err ==>
              CodeAt(HostStep(s, Callx(fr), f), fr.address) == fr.outcome.ret
    ensures !fr.kind.Create? && !ApplyCall(s, fr, f).1.err && Quiet(fr.ops) ==>
              var t := HostStep(s, Callx(fr), f);
              Balance(t, x) == Balance(s, x) + Gain(fr.caller, fr.address, Moved(fr), x) && CodeAt(t, x) == CodeAt(s, x)
  {
    if fr.kind.Create? {
      if !ApplyCreate(s, fr, f).1.err {
        CreateInstalls(s, fr, f);
      }
    } else if !ApplyCall(s, fr, f).1.err && Quiet(fr.ops) {
      CallMoves(s, fr, f, x);
    }
    hide ApplyCreate, ApplyCall, Balance, CodeAt, Quiet;
  }
}
