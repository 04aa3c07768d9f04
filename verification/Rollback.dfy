/** What a failed frame leaves behind. */
module Rollback {
  import opened Wrappers
  import opened Words
  import opened WorldState
  import opened Sstore
  import opened Executor
  import opened Logs

  /** Every read of accounts, storage and the refund counter gives the same answer. */
  ghost predicate SameReads(s: TxnState, t: TxnState) {
    && t.current.refund == s.current.refund
    && forall a :: GetOrFresh(t, a) == GetOrFresh(s, a)
  }

  // ---------- Frames revert to their own snapshots ----------

  lemma RefundProtects(s: TxnState, r: uint64, n: nat, keep: LogSlice, content: seq<Log>)
    requires Protects(s, n, keep, content)
    ensures Protects(WithRefund(s, r), n, keep, content)
  {
  }

  lemma TransferProtects(s: TxnState, from: Address, to: Address, value: Option<nat>, n: nat, keep: LogSlice, content: seq<Log>)
    requires Protects(s, n, keep, content)
    ensures Protects(Transfer(s, from, to, value), n, keep, content)
  {
    hide Protects, Step;
    if value.Some? {
      StepProtects(s, SubBalance(from, value.value), n, keep, content);
      StepProtects(Step(s, SubBalance(from, value.value)), AddBalance(to, value.value), n, keep, content);
    }
  }

  lemma DestroyProtects(s: TxnState, a: Address, b: Address, n: nat, keep: LogSlice, content: seq<Log>)
    requires Protects(s, n, keep, content)
    ensures Protects(Destroy(s, a, b), n, keep, content)
  {
    hide Protects, Step, Balance, HasSuicided;
    StepProtects(s, AddRefund(DESTROY_REFUND), n, keep, content);
    var t := if HasSuicided(s, a) then s else Step(s, AddRefund(DESTROY_REFUND));
    StepProtects(t, AddBalance(b, Balance(t, a)), n, keep, content);
    StepProtects(Step(t, AddBalance(b, Balance(t, a))), Suicide(a), n, keep, content);
  }

  lemma StoreProtects(s: TxnState, a: Address, k: Key, v: Word, f: Forks, n: nat, keep: LogSlice, content: seq<Log>)
    requires Protects(s, n, keep, content)
    ensures Protects(SetStorage(s, a, k, v, f), n, keep, content)
  {
    hide Protects, Step, State, CommittedState, RefundDelta;
    StepProtects(s, SetState(a, k, v), n, keep, content);
    if State(s, a, k) != v {
      RefundProtects(Step(s, SetState(a, k, v)),
                     Wrap(s.current.refund + RefundDelta(CommittedState(s, a, k), State(s, a, k), v, f)), n, keep, content);
    }
  }

  lemma EnterCallProtects(s: TxnState, fr: Frame, n: nat, keep: LogSlice, content: seq<Log>)
    requires Protects(s, n, keep, content)
    ensures Protects(Step(Step(s, Snapshot), Touch(fr.address)), n, keep, content)
    ensures Protects(EnterCall(s, fr), n, keep, content)
  {
    hide Protects, Step, Transfer;
    StepProtects(s, Snapshot, n, keep, content);
    StepProtects(Step(s, Snapshot), Touch(fr.address), n, keep, content);
    TransferProtects(Step(Step(s, Snapshot), Touch(fr.address)), fr.caller, fr.address, fr.value, n, keep, content);
  }

  lemma EnterCreateProtects(s: TxnState, fr: Frame, f: Forks, n: nat, keep: LogSlice, content: seq<Log>)
    requires Protects(s, n, keep, content)
    ensures Protects(EnterCreate(s, fr, f), n, keep, content)
  {
    hide Protects, Step;
    var t := Step(s, Snapshot);
    StepProtects(s, Snapshot, n, keep, content);
    StepProtects(t, CreateAccount(fr.address), n, keep, content);
    StepProtects(Step(t, CreateAccount(fr.address)), IncrNonce(fr.address), n, keep, content);
  }

  lemma FinishProtects(t: TxnState, id: nat, fr: Frame, f: Forks, n: nat, keep: LogSlice, content: seq<Log>)
    requires Protects(t, n, keep, content) && n <= id < |t.snapshots|
    ensures Protects(FinishCreate(t, id, fr, f).0, n, keep, content)
  {
    hide Protects, Step, CodeGas;
    StepProtects(t, Revert(id), n, keep, content);
    StepProtects(t, SetCode(fr.address, fr.outcome.ret), n, keep, content);
  }

  /** No host operation, nested frames included, touches logs that a snapshot below it holds. */
  lemma {:induction false} HostProtects(s: TxnState, op: HostOp, f: Forks, n: nat, keep: LogSlice, content: seq<Log>)
    requires Protects(s, n, keep, content) && n <= |s.snapshots|
    ensures Protects(HostStep(s, op, f), n, keep, content)
    decreases op, 0
  {
    hide Protects;
    match op
    case Store(a, k, v) => StoreProtects(s, a, k, v, f, n, keep, content);
    case Emit(l) => StepProtects(s, EmitLog(l), n, keep, content);
    case Selfdestruct(a, b) => DestroyProtects(s, a, b, n, keep, content);
    case Callx(fr) =>
      if fr.kind.Create? {
        CreateProtects(s, fr, f, n, keep, content);
      } else {
        CallProtects(s, fr, f, n, keep, content);
      }
  }

  lemma {:induction false} OpsProtect(s: TxnState, ops: seq<HostOp>, f: Forks, n: nat, keep: LogSlice, content: seq<Log>)
    requires Protects(s, n, keep, content) && n <= |s.snapshots|
    ensures Protects(RunOps(s, ops, f), n, keep, content)
    decreases ops, 0
  {
    hide Protects, HostStep;
    if ops != [] {
      HostProtects(s, ops[0], f, n, keep, content);
      OpsProtect(HostStep(s, ops[0], f), ops[1..], f, n, keep, content);
    }
  }

  lemma {:induction false} CallProtects(s: TxnState, fr: Frame, f: Forks, n: nat, keep: LogSlice, content: seq<Log>)
    requires Protects(s, n, keep, content) && n <= |s.snapshots|
    ensures Protects(ApplyCall(s, fr, f).0, n, keep, content)
    decreases fr, 1
  {
    hide Protects, Step, EnterCall, CallPayable;
    EnterCallProtects(s, fr, n, keep, content);
    OpsProtect(EnterCall(s, fr), fr.ops, f, n, keep, content);
    StepProtects(RunOps(EnterCall(s, fr), fr.ops, f), Revert(|s.snapshots|), n, keep, content);
  }

  lemma {:induction false} CreateProtects(s: TxnState, fr: Frame, f: Forks, n: nat, keep: LogSlice, content: seq<Log>)
    requires Protects(s, n, keep, content) && n <= |s.snapshots|
    ensures Protects(ApplyCreate(s, fr, f).0, n, keep, content)
    decreases fr, 1
  {
    StepCount(s, IncrNonce(fr.caller));
    hide Protects, Step, EnterCreate, HasCodeOrNonce, CanPay, Transfer, FinishCreate;
    var m := Step(s, IncrNonce(fr.caller));
    StepProtects(s, IncrNonce(fr.caller), n, keep, content);
    var c := EnterCreate(m, fr, f);
    EnterCreateProtects(m, fr, f, n, keep, content);
    var p := Transfer(c, fr.caller, fr.address, fr.value);
    TransferProtects(c, fr.caller, fr.address, fr.value, n, keep, content);
    OpsProtect(p, fr.ops, f, n, keep, content);
    FinishProtects(RunOps(p, fr.ops, f), |m.snapshots|, fr, f, n, keep, content);
  }

  // ---------- Calls ----------

  /** The logs of the entry, on the snapshot a frame takes, outlast everything the frame does. */
  lemma FrameKeepsLogs(s: TxnState, t: TxnState, ops: seq<HostOp>, f: Forks)
    requires LogsOk(s) && t.snapshots == s.snapshots + [s.current]
    requires Protects(t, |s.snapshots|, s.current.logs, LogsOf(s))
    ensures var u := RunOps(t, ops, f);
            |s.snapshots| < |u.snapshots| && LogsOf(Step(u, Revert(|s.snapshots|))) == LogsOf(s)
  {
    OpsProtect(t, ops, f, |s.snapshots|, s.current.logs, LogsOf(s));
    var u := RunOps(t, ops, f);
    assert u.snapshots[|s.snapshots|] == t.snapshots[|s.snapshots|];
    hide RunOps;
  }

  lemma EnterCallKeepsLogs(s: TxnState, fr: Frame)
    requires LogsOk(s)
    ensures Protects(EnterCall(s, fr), |s.snapshots|, s.current.logs, LogsOf(s))
  {
    hide Protects, Transfer;
    SnapshotProtects(s);
    var n, keep, content := |s.snapshots|, s.current.logs, LogsOf(s);
    StepProtects(Step(s, Snapshot), Touch(fr.address), n, keep, content);
    TransferProtects(Step(Step(s, Snapshot), Touch(fr.address)), fr.caller, fr.address, fr.value, n, keep, content);
  }

  /** A failed call, however deep and whatever it did before failing, leaves balances,
      nonces, code, storage, suicide marks, refund and logs as they were at entry. Only an
      account that did not exist may now exist, empty: exactly when the value could not be
      paid, because that path returns without reverting. */
  lemma FailedCallRestores(s: TxnState, fr: Frame, f: Forks)
    requires ApplyCall(s, fr, f).1.err
    ensures var t := ApplyCall(s, fr, f).0;
            && SameReads(s, t)
            && (forall a :: Get(t, a).Some? <==>
                  Get(s, a).Some? || (a == fr.address && fr.depth <= MAX_DEPTH && !CallPayable(s, fr)))
            && (fr.depth > MAX_DEPTH || CallPayable(s, fr) ==> t.current == s.current)
            && (LogsOk(s) ==> LogsOf(t) == LogsOf(s))
  {
    if LogsOk(s) {
      FailedCallRestoresLogs(s, fr, f);
    }
    if fr.depth > MAX_DEPTH {
    } else if !CallPayable(s, fr) {
      TouchReads(Step(s, Snapshot), fr.address);
    } else {
      var t := RunOps(EnterCall(s, fr), fr.ops, f);
      assert t.snapshots[|s.snapshots|] == s.current;
    }
  }

  lemma FailedCallRestoresLogs(s: TxnState, fr: Frame, f: Forks)
    requires ApplyCall(s, fr, f).1.err && LogsOk(s)
    ensures LogsOf(ApplyCall(s, fr, f).0) == LogsOf(s)
  {
    if fr.depth <= MAX_DEPTH && CallPayable(s, fr) {
      EnterCallKeepsLogs(s, fr);
      FrameKeepsLogs(s, EnterCall(s, fr), fr.ops, f);
      hide EnterCall, CallPayable, RunOps, LogsOk, Protects;
    }
  }

  lemma TouchReads(s: TxnState, a: Address)
    ensures SameReads(s, Step(s, Touch(a)))
    ensures forall b :: Get(Step(s, Touch(a)), b).Some? <==> Get(s, b).Some? || b == a
  {
  }

  // ---------- Creations ----------

  /** The creation fails because its value cannot be paid. */
  predicate CreateUnpaid(s: TxnState, fr: Frame, f: Forks) {
    var n := Step(s, IncrNonce(fr.caller));
    && fr.depth <= MAX_DEPTH && !HasCodeOrNonce(n, fr.address)
    && !CanPay(EnterCreate(n, fr, f), fr.caller, fr.value)
  }

  /** It fails, before Homestead, because its code cannot be paid. */
  predicate CodeUnpaidBeforeHomestead(s: TxnState, fr: Frame, f: Forks) {
    && fr.depth <= MAX_DEPTH && !HasCodeOrNonce(Step(s, IncrNonce(fr.caller)), fr.address)
    && !f.homestead && !fr.outcome.err
    && !(f.eip158 && |fr.outcome.ret| > MAX_CODE_SIZE)
    && fr.outcome.gasLeft < CodeGas(fr.outcome.ret)
  }

  /** The state in which the init code of a creation ends. */
  function AfterInit(s: TxnState, fr: Frame, f: Forks): TxnState {
    var c := EnterCreate(Step(s, IncrNonce(fr.caller)), fr, f);
    RunOps(Transfer(c, fr.caller, fr.address, fr.value), fr.ops, f)
  }

  /** A failed creation leaves everything as at entry except the caller's nonce, on all of its
      exits but two: when the value cannot be paid it leaves the account it had entered, and
      before Homestead, when the code cannot be paid, what the init code did. */
  lemma FailedCreateRestores(s: TxnState, fr: Frame, f: Forks)
    requires ApplyCreate(s, fr, f).1.err
    ensures ApplyCreate(s, fr, f).0.current ==
            if fr.depth > MAX_DEPTH then s.current
            else if CreateUnpaid(s, fr, f) then EnterCreate(Step(s, IncrNonce(fr.caller)), fr, f).current
            else if CodeUnpaidBeforeHomestead(s, fr, f) then AfterInit(s, fr, f).current
            else Step(s, IncrNonce(fr.caller)).current
  {
    var n := Step(s, IncrNonce(fr.caller));
    if fr.depth <= MAX_DEPTH && !HasCodeOrNonce(n, fr.address) {
      var c := EnterCreate(n, fr, f);
      var p := Transfer(c, fr.caller, fr.address, fr.value);
      var t := RunOps(p, fr.ops, f);
      SavedAcross(n, p, t);
      hide Step, EnterCreate, Transfer, CanPay, HasCodeOrNonce, RunOps;
      if CanPay(c, fr.caller, fr.value) {
        FinishRestores(n, t, fr, f);
      }
    }
  }

  lemma SavedAcross(n: TxnState, p: TxnState, t: TxnState)
    requires p.snapshots == n.snapshots + [n.current] && p.snapshots <= t.snapshots
    ensures |n.snapshots| < |t.snapshots| && t.snapshots[|n.snapshots|] == n.current
  {
  }

  lemma FinishRestores(n: TxnState, t: TxnState, fr: Frame, f: Forks)
    requires |n.snapshots| < |t.snapshots| && t.snapshots[|n.snapshots|] == n.current
    requires FinishCreate(t, |n.snapshots|, fr, f).1.err
    ensures var kept := !f.homestead && !fr.outcome.err && !(f.eip158 && |fr.outcome.ret| > MAX_CODE_SIZE)
                        && fr.outcome.gasLeft < CodeGas(fr.outcome.ret);
            FinishCreate(t, |n.snapshots|, fr, f).0.current == if kept then t.current else n.current
  {
  }

  /** An unpaid creation is rolled back if and only if nothing had been done yet: from
      EIP-158 on the new account stays behind with nonce 1 and its old storage gone. */
  lemma UnpaidCreateLeaks(s: TxnState, fr: Frame, f: Forks)
    requires CreateUnpaid(s, fr, f)
    ensures ApplyCreate(s, fr, f).1.err
    ensures ApplyCreate(s, fr, f).0.current == Step(s, IncrNonce(fr.caller)).current <==> !f.eip158
    ensures f.eip158 ==> Nonce(ApplyCreate(s, fr, f).0, fr.address) == 1
  {
    hide Step, Nonce, CanPay, Get;
    var n := Step(s, IncrNonce(fr.caller));
    EnterCreateLeaves(n, fr, f);
  }

  lemma EnterCreateLeaves(n: TxnState, fr: Frame, f: Forks)
    requires !HasCodeOrNonce(n, fr.address)
    ensures EnterCreate(n, fr, f).current == n.current <==> !f.eip158
    ensures f.eip158 ==> Nonce(EnterCreate(n, fr, f), fr.address) == 1
  {
    if f.eip158 {
      var c := Step(Step(n, Snapshot), CreateAccount(fr.address));
      assert Nonce(c, fr.address) == 0;
      assert Nonce(n, fr.address) == 0;
    }
  }

  /** A failed creation that is rolled back restores the logs too. */
  lemma FailedCreateRestoresLogs(s: TxnState, fr: Frame, f: Forks)
    requires ApplyCreate(s, fr, f).1.err && LogsOk(s) && !CodeUnpaidBeforeHomestead(s, fr, f)
    ensures LogsOf(ApplyCreate(s, fr, f).0) == LogsOf(s)
  {
    var n := Step(s, IncrNonce(fr.caller));
    IncrKeepsLogs(s, fr.caller);
    if fr.depth <= MAX_DEPTH && !HasCodeOrNonce(n, fr.address) {
      EnterCreateKeepsLogs(n, fr, f);
      var c := EnterCreate(n, fr, f);
      var p := Transfer(c, fr.caller, fr.address, fr.value);
      TransferProtects(c, fr.caller, fr.address, fr.value, |n.snapshots|, n.current.logs, LogsOf(n));
      FrameKeepsLogs(n, p, fr.ops, f);
      EnteredLogs(n, fr, f);
      hide Protects, EnterCreate, Transfer, RunOps, CanPay, HasCodeOrNonce;
      assert CreateUnpaid(s, fr, f) ==> ApplyCreate(s, fr, f).0 == c;
    }
  }

  lemma IncrKeepsLogs(s: TxnState, a: Address)
    requires LogsOk(s)
    ensures LogsOk(Step(s, IncrNonce(a))) && LogsOf(Step(s, IncrNonce(a))) == LogsOf(s)
  {
  }

  lemma EnteredLogs(n: TxnState, fr: Frame, f: Forks)
    ensures LogsOf(EnterCreate(n, fr, f)) == LogsOf(n)
  {
  }

  lemma EnterCreateKeepsLogs(s: TxnState, fr: Frame, f: Forks)
    requires LogsOk(s)
    ensures Protects(EnterCreate(s, fr, f), |s.snapshots|, s.current.logs, LogsOf(s))
  {
    hide Protects;
    SnapshotProtects(s);
    var t, n, keep, content := Step(s, Snapshot), |s.snapshots|, s.current.logs, LogsOf(s);
    StepProtects(t, CreateAccount(fr.address), n, keep, content);
    StepProtects(Step(t, CreateAccount(fr.address)), IncrNonce(fr.address), n, keep, content);
  }
}
