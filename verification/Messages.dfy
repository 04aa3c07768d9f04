/** What a message does, address by address: who pays, who is paid, what its receipt tells
    (state/executor.go). */
module Messages {
  import opened Wrappers
  import opened Words
  import opened WorldState
  import opened Sstore
  import opened Logs
  import opened Executor
  import opened Rollback
  import opened BlockExec
  import opened Payments

  // ---------- Messages ----------

  /** The contract's address is free for the sender's next nonce. */
  predicate Unused(s: TxnState, m: Message) {
    && (if m.created == m.from then Wrap(Nonce(s, m.from) + 1) else Nonce(s, m.created)) == 0
    && CodeAt(s, m.created) == []
  }

  /** What the top frame did stays: it did not fail, or was a creation that before Homestead
      could not pay for its code. */
  predicate Stays(s: TxnState, m: Message, f: Forks) {
    && !m.outcome.err
    && (m.to.None? ==>
          && Unused(s, m) && !(f.eip158 && |m.outcome.ret| > 24576)
          && (f.homestead ==> m.outcome.gasLeft >= Wrap(200 * |m.outcome.ret|)))
  }

  function Recipient(m: Message): Address {
    if m.to.None? then m.created else m.to.value
  }

  lemma UnusedIff(s: TxnState, m: Message, gas: uint64)
    requires m.to.None?
    ensures Free(s, TopFrame(m, gas)) <==> Unused(s, m)
  {
    IncrOnly(s, m.from, m.created);
    hide Step;
  }

  lemma IncrRun(s: TxnState, a: Address, x: Address, t: TxnState)
    requires t.current == Step(s, IncrNonce(a)).current && t.base == s.base
    ensures GetOrFresh(t, x) == GetOrFresh(Step(s, IncrNonce(a)), x)
  {
  }

  /** The top frame moves the value to the recipient, if what it does stays, and else moves
      nothing. */
  lemma TopPays(s: TxnState, m: Message, gas: uint64, f: Forks, x: Address)
    requires Quiet(m.ops) && m.value <= Balance(s, m.from)
    ensures Balance(RunTop(s, m, gas, f).0, x) ==
            Balance(s, x) + if Stays(s, m, f) then Gain(m.from, Recipient(m), m.value, x) else 0
  {
    if m.to.None? {
      CreatedPays(s, m, gas, f, x);
    } else {
      CalledPays(s, m, gas, f, x);
    }
  }

  lemma CalledPays(s: TxnState, m: Message, gas: uint64, f: Forks, x: Address)
    requires Quiet(m.ops) && m.value <= Balance(s, m.from) && m.to.Some?
    ensures var t := RunTop(s, m, gas, f).0;
            Balance(t, x) == Balance(s, x) + if Stays(s, m, f) then Gain(m.from, Recipient(m), m.value, x) else 0
  {
    var n, fr := Step(s, IncrNonce(m.from)), TopFrame(m, gas);
    IncrOnly(s, m.from, x);
    IncrOnly(s, m.from, m.from);
    CallResult(n, fr, f);
    hide Step, ApplyCall;
    if m.outcome.err {
      FailedCallRestores(n, fr, f);
    } else {
      CallMoves(n, fr, f, x);
    }
  }

  lemma CreatedPays(s: TxnState, m: Message, gas: uint64, f: Forks, x: Address)
    requires Quiet(m.ops) && m.value <= Balance(s, m.from) && m.to.None?
    ensures var t := RunTop(s, m, gas, f).0;
            Balance(t, x) == Balance(s, x) + if Stays(s, m, f) then Gain(m.from, Recipient(m), m.value, x) else 0
  {
    var fr := TopFrame(m, gas);
    CreateLeaves(s, fr, f, x);
    UnusedIff(s, m, gas);
    AfterInitPays(s, fr, f, x);
    IncrOnly(s, m.from, x);
    hide Step, ApplyCreate, AfterInit, Unused, Free;
  }

  /** What the init code did stays. */
  predicate InitStays(s: TxnState, fr: Frame, f: Forks) {
    && Free(s, fr) && !fr.outcome.err && !(f.eip158 && |fr.outcome.ret| > 24576)
    && (f.homestead ==> fr.outcome.gasLeft >= Wrap(200 * |fr.outcome.ret|))
  }

  /** A creation that can be paid leaves its init code's state, with the code or without, or
      just counts the caller's nonce. */
  lemma CreateLeaves(s: TxnState, fr: Frame, f: Forks, x: Address)
    requires fr.depth <= MAX_DEPTH && Amount(fr.value) <= Balance(s, fr.caller)
    ensures var t := ApplyCreate(s, fr, f).0;
            var u := if InitStays(s, fr, f) then AfterInit(s, fr, f) else Step(s, IncrNonce(fr.caller));
            && Balance(t, x) == Balance(u, x) && Nonce(t, x) == Nonce(u, x)
            && (forall k :: State(t, x, k) == State(u, x, k))
            && (x != fr.address ==> CodeAt(t, x) == CodeAt(u, x))
  {
    CreateResult(s, fr, f);
    CreatePayableIff(s, fr, f);
    if ApplyCreate(s, fr, f).1.err {
      FailedLeaves(s, fr, f, x);
    } else {
      CreateEnds(s, fr, f);
      ObjectAfter(AfterInit(s, fr, f), SetCode(fr.address, fr.outcome.ret), x);
      hide Step, ApplyCreate, AfterInit, Free;
    }
  }

  lemma FailedLeaves(s: TxnState, fr: Frame, f: Forks, x: Address)
    requires fr.depth <= MAX_DEPTH && Amount(fr.value) <= Balance(s, fr.caller) && ApplyCreate(s, fr, f).1.err
    ensures GetOrFresh(ApplyCreate(s, fr, f).0, x) ==
            GetOrFresh(if InitStays(s, fr, f) then AfterInit(s, fr, f) else Step(s, IncrNonce(fr.caller)), x)
  {
    CreateResult(s, fr, f);
    CreatePayableIff(s, fr, f);
    FailedCreateRestores(s, fr, f);
    assert AfterInit(s, fr, f).base == s.base && Step(s, IncrNonce(fr.caller)).base == s.base;
    hide Step, ApplyCreate, AfterInit, CanPay, HasCodeOrNonce, EnterCreate;
    assert CodeUnpaidBeforeHomestead(s, fr, f) <==> InitStays(s, fr, f);
  }

  /** The gas is bought at the full price of the limit. */
  lemma ChargedPays(s: TxnState, m: Message, x: Address)
    requires m.gasPrice * m.gas <= Balance(s, m.from)
    ensures Balance(Charged(s, m), x) == Balance(s, x) - if x == m.from then m.gasPrice * m.gas else 0
    ensures SameButBalance(s, Charged(s, m), x)
  {
    SubPays(s, m.from, m.gasPrice * m.gas, x);
  }

  lemma PayPays(s: TxnState, m: Message, used: uint64, left: uint64, coinbase: Address, x: Address)
    ensures var t := Pay(s, m, used, left, coinbase);
            && Balance(t, x) == Balance(s, x) + (if x == m.from then left * m.gasPrice else 0)
                                              + (if x == coinbase then used * m.gasPrice else 0)
            && SameButBalance(s, t, x)
  {
    AddPays(s, m.from, left * m.gasPrice, x);
    AddPays(Step(s, AddBalance(m.from, left * m.gasPrice)), coinbase, used * m.gasPrice, x);
    hide Step;
  }

  /** The state in which the top frame of an accepted message starts. */
  function Entered(b: Block, m: Message): TxnState {
    Charged(Step(b.state, Snapshot), m)
  }

  lemma EnteredReads(b: Block, m: Message, x: Address)
    requires m.gasPrice * m.gas <= Balance(b.state, m.from)
    ensures Balance(Entered(b, m), x) == Balance(b.state, x) - if x == m.from then m.gasPrice * m.gas else 0
    ensures SameButBalance(b.state, Entered(b, m), x)
  {
    var s := Step(b.state, Snapshot);
    SnapshotReads(b.state, x);
    SnapshotReads(b.state, m.from);
    ChargedPays(s, m, x);
    hide Step, Charged;
  }

  lemma EnteredStays(b: Block, m: Message, f: Forks)
    requires m.gasPrice * m.gas <= Balance(b.state, m.from)
    ensures Stays(Entered(b, m), m, f) <==> Stays(b.state, m, f)
  {
    EnteredReads(b, m, m.from);
    EnteredReads(b, m, m.created);
    hide Entered;
    StaysSame(b.state, Entered(b, m), m, f);
  }

  /** The state in which its top frame ends, and what that returns. */
  function Ended(b: Block, m: Message, f: Forks): (TxnState, Result)
    requires IntrinsicGas(m, f) <= m.gas
  {
    RunTop(Entered(b, m), m, m.gas - IntrinsicGas(m, f), f)
  }

  lemma AppliedIs(b: Block, m: Message, env: Env)
    requires Apply(b, m, env).1.Applied?
    ensures m.gasPrice * m.gas <= Balance(b.state, m.from) && IntrinsicGas(m, env.forks) <= m.gas
    ensures m.value <= Balance(Entered(b, m), m.from)
    ensures var e, w := Apply(b, m, env).1, Ended(b, m, env.forks);
            && (e.gasUsed, e.gasLeft) == Settle(m.gas, w.1.gasLeft, w.0.current.refund)
            && e.failed == w.1.err
            && Apply(b, m, env).0.state == Pay(w.0, m, e.gasUsed, e.gasLeft, env.coinbase)
  {
    SnapshotReads(b.state, m.from);
    hide Step, Charged, RunTop, Settle, Pay, IntrinsicGas;
  }

  lemma EndedPays(b: Block, m: Message, f: Forks, x: Address)
    requires Quiet(m.ops) && IntrinsicGas(m, f) <= m.gas && m.value <= Balance(Entered(b, m), m.from)
    ensures Balance(Ended(b, m, f).0, x) ==
            Balance(Entered(b, m), x) + if Stays(Entered(b, m), m, f) then Gain(m.from, Recipient(m), m.value, x) else 0
  {
    TopPays(Entered(b, m), m, m.gas - IntrinsicGas(m, f), f, x);
  }

  lemma StaysSame(s: TxnState, t: TxnState, m: Message, f: Forks)
    requires SameButBalance(s, t, m.from) && SameButBalance(s, t, m.created)
    ensures Stays(s, m, f) <==> Stays(t, m, f)
  {
  }

  /** Around the frame of any executed message, whatever its code does: the gas limit is bought
      from the sender before it, what is left is returned and the beneficiary paid after it. */
  lemma ApplySettles(b: Block, m: Message, env: Env, x: Address)
    requires Apply(b, m, env).1.Applied?
    ensures IntrinsicGas(m, env.forks) <= m.gas
    ensures var (c, e) := Apply(b, m, env);
            && Balance(Entered(b, m), x) == Balance(b.state, x) - (if x == m.from then m.gasPrice * m.gas else 0)
            && Balance(c.state, x) == Balance(Ended(b, m, env.forks).0, x)
                 + (if x == m.from then e.gasLeft * m.gasPrice else 0)
                 + (if x == env.coinbase then e.gasUsed * m.gasPrice else 0)
  {
    hide Apply, Entered, Ended, Settle, Pay, IntrinsicGas, Balance, SameButBalance;
    AppliedIs(b, m, env);
    EnteredReads(b, m, x);
    var e, w := Apply(b, m, env).1, Ended(b, m, env.forks).0;
    PayPays(w, m, e.gasUsed, e.gasLeft, env.coinbase, x);
  }

  /** A message that was executed, whose code only wrote storage and emitted logs: the sender
      has paid for its gas but what was left, the beneficiary earned the gas used, and the
      recipient has the value if what the frame did stays. This holds when any of the three
      are the same account. */
  lemma ApplyPays(b: Block, m: Message, env: Env, x: Address)
    requires Apply(b, m, env).1.Applied? && Quiet(m.ops)
    ensures var (c, e) := Apply(b, m, env);
            Balance(c.state, x) == Balance(b.state, x)
              - (if x == m.from then m.gasPrice * m.gas - e.gasLeft * m.gasPrice else 0)
              + (if x == env.coinbase then e.gasUsed * m.gasPrice else 0)
              + (if Stays(b.state, m, env.forks) then Gain(m.from, Recipient(m), m.value, x) else 0)
  {
    hide Apply, Entered, Ended, Settle, Pay, Stays, IntrinsicGas, Balance, Quiet, SameButBalance, Gain;
    AppliedIs(b, m, env);
    EnteredReads(b, m, x);
    EnteredStays(b, m, env.forks);
    EndedPays(b, m, env.forks, x);
    var e, w := Apply(b, m, env).1, Ended(b, m, env.forks).0;
    PayPays(w, m, e.gasUsed, e.gasLeft, env.coinbase, x);
  }

  /** And where the code returned no more gas than it got, the sender has paid for exactly the
      gas used. */
  lemma ApplyPaysForGas(b: Block, m: Message, env: Env, x: Address)
    requires Apply(b, m, env).1.Applied? && Quiet(m.ops) && RunIsMetered(m, env.forks)
    ensures var (c, e) := Apply(b, m, env);
            && e.gasUsed + e.gasLeft == m.gas
            && Balance(c.state, x) == Balance(b.state, x)
                 - (if x == m.from then e.gasUsed * m.gasPrice else 0)
                 + (if x == env.coinbase then e.gasUsed * m.gasPrice else 0)
                 + (if Stays(b.state, m, env.forks) then Gain(m.from, Recipient(m), m.value, x) else 0)
  {
    hide Apply, Stays, Quiet, RunIsMetered, Balance;
    ApplySplits(b, m, env);
    ApplyPays(b, m, env, x);
    var e := Apply(b, m, env).1;
    Distributes(m.gasPrice, e.gasUsed, e.gasLeft);
  }

  lemma Distributes(price: nat, used: nat, left: nat)
    ensures price * (used + left) == used * price + left * price
  {
  }

  lemma EndedGas(b: Block, m: Message, f: Forks)
    requires IntrinsicGas(m, f) <= m.gas && RunIsMetered(m, f)
    ensures Ended(b, m, f).1.gasLeft <= m.gas
  {
    TopGas(Entered(b, m), m, m.gas - IntrinsicGas(m, f), f);
    hide Entered, RunTop, IntrinsicGas;
  }

  lemma ApplySplits(b: Block, m: Message, env: Env)
    requires Apply(b, m, env).1.Applied? && RunIsMetered(m, env.forks)
    ensures var e := Apply(b, m, env).1; e.gasUsed + e.gasLeft == m.gas
  {
    hide Apply, Entered, Ended, RunTop, Settle, Pay, IntrinsicGas, Balance;
    AppliedIs(b, m, env);
    EndedGas(b, m, env.forks);
    var w := Ended(b, m, env.forks);
    SettleSplits(m.gas, w.1.gasLeft, w.0.current.refund);
  }

  /** A creation that succeeded has left its code, whatever its init code did. */
  lemma ApplyInstalls(b: Block, m: Message, env: Env)
    requires Apply(b, m, env).1.Applied? && !Apply(b, m, env).1.failed && m.to.None?
    ensures CodeAt(Apply(b, m, env).0.state, m.created) == m.outcome.ret
  {
    hide Apply, Entered, Settle, Pay, IntrinsicGas, Balance, ApplyCreate, CodeAt;
    AppliedIs(b, m, env);
    CreateInstalls(Entered(b, m), TopFrame(m, m.gas - IntrinsicGas(m, env.forks)), env.forks);
    var e, w := Apply(b, m, env).1, Ended(b, m, env.forks).0;
    PayPays(w, m, e.gasUsed, e.gasLeft, env.coinbase, m.created);
  }

  /** A message is accepted if and only if its nonce is the sender's next, the sender can pay
      for the gas limit and the value together, the block has that much gas left, and the limit
      covers the bytes and the transaction itself. */
  lemma AcceptedIff(b: Block, m: Message, env: Env)
    ensures var zeros := multiset(m.input)[0];
            var bytes := 4 * zeros + (if env.forks.istanbul then 16 else 68) * (|m.input| - zeros);
            Apply(b, m, env).1.Applied? <==>
            && m.nonce == Nonce(b.state, m.from)
            && m.gasPrice * m.gas + m.value <= Balance(b.state, m.from)
            && m.gas <= b.gasPool
            && (if m.to.None? && env.forks.homestead then 53000 else 21000) + bytes <= m.gas
  {
    PayloadIs(m.input, env.forks);
    var s := Step(b.state, Snapshot);
    SnapshotReads(b.state, m.from);
    if m.gasPrice * m.gas <= Balance(s, m.from) {
      ChargedPays(s, m, m.from);
    }
    hide Step, Charged, PayloadGas, Execute;
  }

  /** The payload is paid for byte by byte. */
  lemma {:induction false} PayloadIs(input: seq<nat>, f: Forks)
    ensures var zeros := multiset(input)[0];
            zeros <= |input| && PayloadGas(input, f) == 4 * zeros + (if f.istanbul then 16 else 68) * (|input| - zeros)
  {
    if input != [] {
      var n := |input| - 1;
      PayloadIs(input[..n], f);
      assert input == input[..n] + [input[n]];
    }
  }

  /** The reason a message is rejected for is the first that applies, in this order. */
  lemma RejectedFor(b: Block, m: Message, env: Env)
    requires Apply(b, m, env).1.Rejected?
    ensures var why, s, cost := Apply(b, m, env).1.why, b.state, m.gasPrice * m.gas;
            && (why.NonceIncorrect? <==> m.nonce != Nonce(s, m.from))
            && (why.NotEnoughFundsForGas? <==> m.nonce == Nonce(s, m.from) && Balance(s, m.from) < cost)
            && (why.BlockLimitReached? <==>
                  m.nonce == Nonce(s, m.from) && cost <= Balance(s, m.from) && b.gasPool < m.gas)
            && (why.NotEnoughIntrinsicGas? || why.IntrinsicGasOverflow? ==> m.gas < IntrinsicGas(m, env.forks))
            && (why.IntrinsicGasOverflow? ==> IntrinsicGas(m, env.forks) >= TWO_64)
            && (why.NotEnoughFunds? ==>
                  cost <= Balance(s, m.from) < cost + m.value && IntrinsicGas(m, env.forks) <= m.gas)
  {
    var s := Step(b.state, Snapshot);
    SnapshotReads(b.state, m.from);
    if m.gasPrice * m.gas <= Balance(s, m.from) {
      ChargedPays(s, m, m.from);
    }
    hide Step, Charged, IntrinsicGas, Execute;
  }

  /** A rejected message costs the block its gas limit, unless it is rejected for its nonce, its
      price or the pool itself. */
  lemma RejectedPool(b: Block, m: Message, env: Env)
    requires Apply(b, m, env).1.Rejected?
    ensures Apply(b, m, env).0.gasPool ==
            if m.nonce == Nonce(b.state, m.from) && m.gasPrice * m.gas <= Balance(b.state, m.from) && m.gas <= b.gasPool
            then b.gasPool - m.gas else b.gasPool
  {
    SnapshotReads(b.state, m.from);
    hide Step, Charged, IntrinsicGas, Execute;
  }

  // ---------- What a message leaves besides balances ----------

  /** Every account but a contract being created: only the sender's nonce is counted, and the
      slots hold what was written, if that stays. */
  ghost predicate Touched(s: TxnState, t: TxnState, m: Message, stays: bool, x: Address) {
    && Nonce(t, x) == (if x == m.from then Wrap(Nonce(s, x) + 1) else Nonce(s, x))
    && CodeAt(t, x) == CodeAt(s, x)
    && forall k :: State(t, x, k) == if stays then Written(m.ops, x, k, State(s, x, k)) else State(s, x, k)
  }

  lemma CalledTouches(s: TxnState, m: Message, gas: uint64, f: Forks, x: Address)
    requires Quiet(m.ops) && m.value <= Balance(s, m.from) && m.to.Some?
    ensures Touched(s, RunTop(s, m, gas, f).0, m, Stays(s, m, f), x)
  {
    hide Step, ApplyCall, Touched, Counted, WroteStorage, SameReadsAt, Quiet, Balance;
    var n, fr := Step(s, IncrNonce(m.from)), TopFrame(m, gas);
    Counts(s, m.from, m.from);
    Counts(s, m.from, x);
    CallResult(n, fr, f);
    var t := RunTop(s, m, gas, f).0;
    if m.outcome.err {
      FailedCallReads(n, fr, f, x);
      CountedTouched(s, n, t, m, x);
    } else {
      CallWrites(n, fr, f, x);
      WroteTouched(s, n, t, m, x);
    }
  }

  /** Only the nonce of `a` is counted up, as far as `x` can tell. */
  ghost predicate Counted(s: TxnState, n: TxnState, a: Address, x: Address) {
    && Balance(n, x) == Balance(s, x) && CodeAt(n, x) == CodeAt(s, x)
    && Nonce(n, x) == (if x == a then Wrap(Nonce(s, x) + 1) else Nonce(s, x))
    && forall k :: State(n, x, k) == State(s, x, k)
  }

  ghost predicate SameReadsAt(s: TxnState, t: TxnState, x: Address) {
    && Balance(t, x) == Balance(s, x) && Nonce(t, x) == Nonce(s, x) && CodeAt(t, x) == CodeAt(s, x)
    && forall k :: State(t, x, k) == State(s, x, k)
  }

  ghost predicate WroteStorage(s: TxnState, t: TxnState, ops: seq<HostOp>, x: Address) {
    && Nonce(t, x) == Nonce(s, x) && CodeAt(t, x) == CodeAt(s, x)
    && forall k :: State(t, x, k) == Written(ops, x, k, State(s, x, k))
  }

  lemma Counts(s: TxnState, a: Address, x: Address)
    ensures Counted(s, Step(s, IncrNonce(a)), a, x) && Balance(Step(s, IncrNonce(a)), x) == Balance(s, x)
  {
    IncrOnly(s, a, x);
  }

  lemma FailedCallReads(s: TxnState, fr: Frame, f: Forks, x: Address)
    requires ApplyCall(s, fr, f).1.err
    ensures SameReadsAt(s, ApplyCall(s, fr, f).0, x)
  {
    FailedCallRestores(s, fr, f);
    hide ApplyCall;
  }

  lemma CallWrites(s: TxnState, fr: Frame, f: Forks, x: Address)
    requires !ApplyCall(s, fr, f).1.err && Quiet(fr.ops)
    ensures WroteStorage(s, ApplyCall(s, fr, f).0, fr.ops, x)
  {
    CallMoves(s, fr, f, x);
    hide ApplyCall;
  }

  lemma CountedTouched(s: TxnState, n: TxnState, t: TxnState, m: Message, x: Address)
    requires Counted(s, n, m.from, x) && SameReadsAt(n, t, x)
    ensures Touched(s, t, m, false, x)
  {
    hide State, Nonce, CodeAt, Balance, Written;
    forall k ensures State(t, x, k) == State(s, x, k) {
      assert State(t, x, k) == State(n, x, k);
    }
  }

  lemma WroteTouched(s: TxnState, n: TxnState, t: TxnState, m: Message, x: Address)
    requires Counted(s, n, m.from, x) && WroteStorage(n, t, m.ops, x)
    ensures Touched(s, t, m, true, x)
  {
    hide State, Nonce, CodeAt, Balance, Written;
    forall k ensures State(t, x, k) == Written(m.ops, x, k, State(s, x, k)) {
      assert State(n, x, k) == State(s, x, k);
    }
  }

  lemma CreatedTouches(s: TxnState, m: Message, gas: uint64, f: Forks, x: Address)
    requires Quiet(m.ops) && m.value <= Balance(s, m.from) && m.to.None? && m.created != m.from && x != m.created
    ensures Touched(s, RunTop(s, m, gas, f).0, m, Stays(s, m, f), x)
  {
    var fr := TopFrame(m, gas);
    CreateLeaves(s, fr, f, x);
    UnusedIff(s, m, gas);
    AfterInitReads(s, fr, f, x);
    IncrOnly(s, m.from, x);
    hide Step, ApplyCreate, AfterInit, Unused, Free;
  }

  lemma EndedTouches(b: Block, m: Message, f: Forks, x: Address)
    requires Quiet(m.ops) && IntrinsicGas(m, f) <= m.gas && m.value <= Balance(Entered(b, m), m.from)
    requires m.to.None? ==> m.created != m.from && x != m.created
    ensures Touched(Entered(b, m), Ended(b, m, f).0, m, Stays(Entered(b, m), m, f), x)
  {
    var gas := m.gas - IntrinsicGas(m, f);
    if m.to.None? {
      CreatedTouches(Entered(b, m), m, gas, f, x);
    } else {
      CalledTouches(Entered(b, m), m, gas, f, x);
    }
    hide Entered, RunTop, IntrinsicGas, Touched, Stays, Balance;
  }

  lemma PaidTouched(s: TxnState, u: TxnState, w: TxnState, t: TxnState, m: Message, stays: bool, x: Address)
    requires SameButBalance(s, u, x) && Touched(u, w, m, stays, x) && SameButBalance(w, t, x)
    ensures Touched(s, t, m, stays, x)
  {
    hide State, CommittedState, Nonce, CodeAt, HasSuicided, Written;
    forall k ensures State(t, x, k) == if stays then Written(m.ops, x, k, State(s, x, k)) else State(s, x, k) {
      assert State(t, x, k) == State(w, x, k);
      assert State(u, x, k) == State(s, x, k);
    }
  }

  /** An executed message counts the sender's nonce up by one, whether or not its frame failed,
      and touches no other nonce or code; a creation also makes its contract. */
  lemma ApplyTouches(b: Block, m: Message, env: Env, x: Address)
    requires Apply(b, m, env).1.Applied? && Quiet(m.ops)
    requires m.to.None? ==> m.created != m.from && x != m.created
    ensures Touched(b.state, Apply(b, m, env).0.state, m, Stays(b.state, m, env.forks), x)
  {
    hide Apply, Entered, Ended, Settle, Pay, Stays, IntrinsicGas, Balance, Quiet, SameButBalance, Touched;
    AppliedIs(b, m, env);
    EnteredReads(b, m, x);
    EnteredStays(b, m, env.forks);
    EndedTouches(b, m, env.forks, x);
    var e, w := Apply(b, m, env).1, Ended(b, m, env.forks).0;
    PayPays(w, m, e.gasUsed, e.gasLeft, env.coinbase, x);
    PaidTouched(b.state, Entered(b, m), w, Apply(b, m, env).0.state, m, Stays(b.state, m, env.forks), x);
  }

  /** It failed exactly when what its frame did does not stay, or the code was not paid for. */
  lemma ApplyFails(b: Block, m: Message, env: Env)
    requires Apply(b, m, env).1.Applied?
    ensures Apply(b, m, env).1.failed <==>
            !Stays(b.state, m, env.forks) || (m.to.None? && m.outcome.gasLeft < Wrap(200 * |m.outcome.ret|))
  {
    hide Apply, Entered, Ended, Settle, Pay, IntrinsicGas, Balance, Unused;
    AppliedIs(b, m, env);
    EnteredStays(b, m, env.forks);
    EndedFails(b, m, env.forks);
  }

  lemma EndedFails(b: Block, m: Message, f: Forks)
    requires IntrinsicGas(m, f) <= m.gas && m.value <= Balance(Entered(b, m), m.from)
    ensures Ended(b, m, f).1.err <==>
            !Stays(Entered(b, m), m, f) || (m.to.None? && m.outcome.gasLeft < Wrap(200 * |m.outcome.ret|))
  {
    var u, gas := Entered(b, m), m.gas - IntrinsicGas(m, f);
    if m.to.None? {
      CreateResult(u, TopFrame(m, gas), f);
      UnusedIff(u, m, gas);
    } else {
      IncrOnly(u, m.from, m.from);
      CallResult(Step(u, IncrNonce(m.from)), TopFrame(m, gas), f);
    }
    hide Entered, Step, IntrinsicGas, ApplyCall, ApplyCreate, Free, Unused;
  }

  // ---------- Receipts ----------

  lemma SameLogs(s: TxnState, op: Op)
    requires LogsOk(s) && (OnAccount(op) || op.Snapshot?)
    ensures LogsOk(Step(s, op)) && LogsOf(Step(s, op)) == LogsOf(s)
  {
  }

  /** A log is appended to those of the transaction. */
  lemma EmitAppends(s: TxnState, l: Log)
    requires LogsOk(s)
    ensures LogsOk(Step(s, EmitLog(l))) && LogsOf(Step(s, EmitLog(l))) == LogsOf(s) + [l]
  {
    StepKeepsLogsOk(s, EmitLog(l));
    AppendAppends(s.arrays, s.current.logs, l);
  }

  lemma StoreKeepsLogs(s: TxnState, a: Address, k: Key, v: Word, f: Forks)
    requires LogsOk(s)
    ensures LogsOk(SetStorage(s, a, k, v, f)) && LogsOf(SetStorage(s, a, k, v, f)) == LogsOf(s)
  {
    SameLogs(s, SetState(a, k, v));
    hide Step, RefundDelta, State, CommittedState;
  }

  lemma HostEmits(s: TxnState, op: HostOp, f: Forks)
    requires (op.Store? || op.Emit?) && LogsOk(s)
    ensures LogsOk(HostStep(s, op, f)) && LogsOf(HostStep(s, op, f)) == LogsOf(s) + Emitted([op])
  {
    assert [op][1..] == [];
    if op.Emit? {
      EmitAppends(s, op.log);
    } else {
      StoreKeepsLogs(s, op.addr, op.key, op.value, f);
    }
    hide Step, SetStorage, LogsOk, LogsOf;
  }

  lemma NothingEmitted()
    ensures Emitted([]) == []
  {
  }

  lemma EmittedSplits(ops: seq<HostOp>)
    requires ops != []
    ensures Emitted(ops) == Emitted(ops[..1]) + Emitted(ops[1..])
  {
    assert ops[..1][1..] == [];
  }

  lemma {:induction false} QuietRunEmits(s: TxnState, ops: seq<HostOp>, f: Forks)
    requires Quiet(ops) && LogsOk(s)
    ensures LogsOk(RunOps(s, ops, f)) && LogsOf(RunOps(s, ops, f)) == LogsOf(s) + Emitted(ops)
    decreases |ops|
  {
    hide HostStep, LogsOk, LogsOf, Emitted;
    if ops == [] {
      NothingEmitted();
      assert LogsOf(s) + [] == LogsOf(s);
    } else {
      HostEmits(s, ops[0], f);
      QuietRunEmits(HostStep(s, ops[0], f), ops[1..], f);
      EmittedSplits(ops);
      var logs, first, rest := LogsOf(s), Emitted(ops[..1]), Emitted(ops[1..]);
      assert ops[..1] == [ops[0]];
      assert logs + (first + rest) == (logs + first) + rest;
    }
  }

  lemma TransferKeepsLogs(s: TxnState, from: Address, to: Address, value: Option<nat>)
    requires LogsOk(s)
    ensures LogsOk(Transfer(s, from, to, value)) && LogsOf(Transfer(s, from, to, value)) == LogsOf(s)
  {
    hide Step, LogsOk, LogsOf;
    if value.Some? {
      SameLogs(s, SubBalance(from, value.value));
      SameLogs(Step(s, SubBalance(from, value.value)), AddBalance(to, value.value));
    }
  }

  lemma CalledEmits(s: TxnState, fr: Frame, f: Forks)
    requires LogsOk(s) && Quiet(fr.ops)
    ensures LogsOf(ApplyCall(s, fr, f).0) == LogsOf(s) + if ApplyCall(s, fr, f).1.err then [] else Emitted(fr.ops)
  {
    if ApplyCall(s, fr, f).1.err {
      FailedCallRestores(s, fr, f);
    } else {
      var t := Step(s, Snapshot);
      SameLogs(s, Snapshot);
      SameLogs(t, Touch(fr.address));
      TransferKeepsLogs(Step(t, Touch(fr.address)), fr.caller, fr.address, fr.value);
      hide Step, LogsOk, LogsOf, Transfer, RunOps, CallPayable;
      QuietRunEmits(EnterCall(s, fr), fr.ops, f);
    }
  }

  lemma AfterInitEmits(s: TxnState, fr: Frame, f: Forks)
    requires LogsOk(s) && Quiet(fr.ops)
    ensures LogsOk(AfterInit(s, fr, f)) && LogsOf(AfterInit(s, fr, f)) == LogsOf(s) + Emitted(fr.ops)
  {
    var n := Step(s, IncrNonce(fr.caller));
    SameLogs(s, IncrNonce(fr.caller));
    SameLogs(n, Snapshot);
    var t := Step(n, Snapshot);
    SameLogs(t, CreateAccount(fr.address));
    SameLogs(Step(t, CreateAccount(fr.address)), IncrNonce(fr.address));
    hide Step, LogsOk, LogsOf, Transfer, RunOps;
    var c := EnterCreate(n, fr, f);
    TransferKeepsLogs(c, fr.caller, fr.address, fr.value);
    QuietRunEmits(Transfer(c, fr.caller, fr.address, fr.value), fr.ops, f);
  }

  lemma CreatedEmits(s: TxnState, fr: Frame, f: Forks)
    requires LogsOk(s) && Quiet(fr.ops) && fr.depth <= MAX_DEPTH && Amount(fr.value) <= Balance(s, fr.caller)
    ensures LogsOf(ApplyCreate(s, fr, f).0) == LogsOf(s) + if InitStays(s, fr, f) then Emitted(fr.ops) else []
  {
    CreateResult(s, fr, f);
    CreatePayableIff(s, fr, f);
    AfterInitEmits(s, fr, f);
    if !ApplyCreate(s, fr, f).1.err {
      CreateEnds(s, fr, f);
      SameLogs(AfterInit(s, fr, f), SetCode(fr.address, fr.outcome.ret));
    } else if InitStays(s, fr, f) {
      CodeUnpaidEnds(s, fr, f);
    } else {
      UnpaidIff(s, fr, f);
      FailedCreateRestoresLogs(s, fr, f);
    }
  }

  lemma UnpaidIff(s: TxnState, fr: Frame, f: Forks)
    requires fr.depth <= MAX_DEPTH && Amount(fr.value) <= Balance(s, fr.caller) && ApplyCreate(s, fr, f).1.err
    ensures CodeUnpaidBeforeHomestead(s, fr, f) <==> InitStays(s, fr, f)
  {
    CreateResult(s, fr, f);
    hide Step, ApplyCreate, HasCodeOrNonce;
  }

  lemma CodeUnpaidEnds(s: TxnState, fr: Frame, f: Forks)
    requires fr.depth <= MAX_DEPTH && Amount(fr.value) <= Balance(s, fr.caller) && ApplyCreate(s, fr, f).1.err
    requires InitStays(s, fr, f)
    ensures ApplyCreate(s, fr, f).0 == AfterInit(s, fr, f)
  {
    CreateResult(s, fr, f);
    CreatePayableIff(s, fr, f);
    hide Step, EnterCreate, HasCodeOrNonce, CanPay, Transfer, RunOps;
  }

  lemma TopEmits(s: TxnState, m: Message, gas: uint64, f: Forks)
    requires LogsOk(s) && Quiet(m.ops) && m.value <= Balance(s, m.from)
    ensures LogsOf(RunTop(s, m, gas, f).0) == LogsOf(s) + if Stays(s, m, f) then Emitted(m.ops) else []
  {
    if m.to.None? {
      CreatedEmits(s, TopFrame(m, gas), f);
      UnusedIff(s, m, gas);
    } else {
      IncrOnly(s, m.from, m.from);
      SameLogs(s, IncrNonce(m.from));
      CallResult(Step(s, IncrNonce(m.from)), TopFrame(m, gas), f);
      CalledEmits(Step(s, IncrNonce(m.from)), TopFrame(m, gas), f);
    }
    hide Step, ApplyCall, ApplyCreate, LogsOk, LogsOf, Free, Unused;
  }

  lemma PayKeepsLogs(s: TxnState, m: Message, used: uint64, left: uint64, coinbase: Address)
    ensures LogsOf(Pay(s, m, used, left, coinbase)) == LogsOf(s)
  {
  }

  lemma EndedEmits(b: Block, m: Message, f: Forks)
    requires LogsOk(b.state) && Quiet(m.ops) && IntrinsicGas(m, f) <= m.gas && m.value <= Balance(Entered(b, m), m.from)
    ensures LogsOf(Ended(b, m, f).0) == LogsOf(b.state) + if Stays(Entered(b, m), m, f) then Emitted(m.ops) else []
  {
    EntryKeepsLogs(b, m);
    TopEmits(Entered(b, m), m, m.gas - IntrinsicGas(m, f), f);
    hide Entered, RunTop, IntrinsicGas, Stays, Balance, LogsOk, LogsOf, Quiet;
  }

  /** The logs of an executed message are what its code emitted, if that stays. */
  lemma ApplyEmits(b: Block, m: Message, env: Env)
    requires Apply(b, m, env).1.Applied? && Quiet(m.ops) && LogsOk(b.state)
    ensures LogsOf(Apply(b, m, env).0.state) ==
            LogsOf(b.state) + if Stays(b.state, m, env.forks) then Emitted(m.ops) else []
  {
    hide Apply, Entered, Ended, Settle, Pay, Stays, IntrinsicGas, LogsOk, LogsOf, Quiet, Balance;
    AppliedIs(b, m, env);
    EnteredStays(b, m, env.forks);
    EndedEmits(b, m, env.forks);
    var e, w := Apply(b, m, env).1, Ended(b, m, env.forks).0;
    PayKeepsLogs(w, m, e.gasUsed, e.gasLeft, env.coinbase);
  }

  lemma EntryKeepsLogs(b: Block, m: Message)
    requires LogsOk(b.state)
    ensures LogsOk(Entered(b, m)) && LogsOf(Entered(b, m)) == LogsOf(b.state)
  {
    SameLogs(b.state, Snapshot);
    SameLogs(Step(b.state, Snapshot), SubBalance(m.from, m.gasPrice * m.gas));
    hide Step, LogsOk, LogsOf;
  }

  /** The receipt of an executed message tells its gas, its failure, its logs and its contract;
      the logs and the refund counter are then empty for the next one. */
  lemma ReceiptTells(b: Block, m: Message, env: Env)
    requires Write(b, m, env).1.Applied? && Quiet(m.ops) && LogsOk(b.state)
    ensures var c := Write(b, m, env).0;
            var stays := Stays(b.state, m, env.forks);
            && |c.receipts| == |b.receipts| + 1 && c.receipts[..|b.receipts|] == b.receipts
            && var r := c.receipts[|b.receipts|];
            && r.txHash == m.hash && r.gasUsed == Apply(b, m, env).1.gasUsed
            && r.cumulativeGasUsed == c.totalGas == Wrap(b.totalGas + r.gasUsed)
            && r.failed == (!stays || (m.to.None? && m.outcome.gasLeft < Wrap(200 * |m.outcome.ret|)))
            && r.logs == LogsOf(b.state) + (if stays then Emitted(m.ops) else [])
            && r.contractAddress == (if m.to.None? then Some(m.created) else None)
            && LogsOf(c.state) == [] && c.state.current.refund == 0
  {
    hide Apply, Stays, Step, LogsOk, LogsOf, Quiet, Emitted;
    ApplyFails(b, m, env);
    ApplyEmits(b, m, env);
    ApplyKeepsReceipts(b, m, env);
    Emptied(Apply(b, m, env).0.state);
  }

  lemma Emptied(s: TxnState)
    ensures var t := Step(Step(s, TakeLogs), Clean(true)); LogsOf(t) == [] && t.current.refund == 0
  {
  }

  lemma ApplyKeepsReceipts(b: Block, m: Message, env: Env)
    ensures var c := Apply(b, m, env).0; c.receipts == b.receipts && c.totalGas == b.totalGas
  {
  }

  /** Once a message is written, no account it touched is left empty or destroyed. */
  lemma WriteCleans(b: Block, m: Message, env: Env, x: Address)
    requires Write(b, m, env).1.Applied?
    ensures var t := Write(b, m, env).0.state;
            x in t.current.objects && Get(t, x).Some? ==> !Get(t, x).value.suicide && !Get(t, x).value.Empty()
  {
    hide Apply;
    Cleaned(Step(Apply(b, m, env).0.state, TakeLogs), x);
    hide Step;
  }

  lemma Cleaned(s: TxnState, x: Address)
    ensures var t := Step(s, Clean(true));
            && (x in t.current.objects <==> x in s.current.objects)
            && (x in t.current.objects && Get(t, x).Some? ==> !Get(t, x).value.suicide && !Get(t, x).value.Empty())
  {
  }

  lemma WriteAppends(b: Block, m: Message, env: Env)
    requires Write(b, m, env).1.Applied?
    ensures var rs := Write(b, m, env).0.receipts;
            |rs| == |b.receipts| + 1 && rs[..|b.receipts|] == b.receipts && rs[|b.receipts|].txHash == m.hash
  {
    hide Apply, Step, LogsOf;
    ApplyKeepsReceipts(b, m, env);
  }

  /** A transaction above the block's limit gets a failed receipt without gas or new logs, and
      neither the accounts nor the gas of the block change. */
  lemma OversizedIsReceipted(b: Block, m: Message, limit: uint64, env: Env, x: Address)
    requires m.gas > limit
    ensures var (c, ok) := ProcessOne(b, m, limit, env);
            && ok && c.gasPool == b.gasPool && c.totalGas == b.totalGas
            && GetOrFresh(c.state, x) == GetOrFresh(b.state, x) && LogsOf(c.state) == []
            && c.receipts ==
               b.receipts + [Receipt(m.hash, b.totalGas, 0, true, LogsOf(b.state), if m.to.None? then Some(m.created) else None)]
  {
  }

  /** `rs` goes on from `before` with one receipt for each message. */
  ghost predicate Receipted(before: seq<Receipt>, rs: seq<Receipt>, msgs: seq<Message>) {
    && |rs| == |before| + |msgs| && rs[..|before|] == before
    && forall i {:trigger msgs[i]} :: 0 <= i < |msgs| ==> rs[|before| + i].txHash == msgs[i].hash
  }

  lemma OneMoreReceipted(before: seq<Receipt>, rs: seq<Receipt>, rs': seq<Receipt>, msgs: seq<Message>, m: Message)
    requires Receipted(before, rs, msgs)
    requires |rs'| == |rs| + 1 && rs'[..|rs|] == rs && rs'[|rs|].txHash == m.hash
    ensures Receipted(before, rs', msgs + [m])
  {
    forall i | 0 <= i < |msgs| + 1 ensures rs'[|before| + i].txHash == (msgs + [m])[i].hash {
      assert i < |msgs| ==> rs'[|before| + i] == rs[|before| + i] && (msgs + [m])[i] == msgs[i];
    }
    assert rs'[..|before|] == rs[..|before|];
  }

  /** A block that is processed to its end has one receipt for each of its transactions, in
      their order. */
  lemma {:induction false} ReceiptsFollow(b: Block, msgs: seq<Message>, limit: uint64, env: Env)
    requires Process(b, msgs, limit, env).1
    ensures Receipted(b.receipts, Process(b, msgs, limit, env).0.receipts, msgs)
  {
    hide ProcessOne;
    if msgs != [] {
      var k := |msgs| - 1;
      assert msgs == msgs[..k] + [msgs[k]];
      ReceiptsFollow(b, msgs[..k], limit, env);
      hide Receipted;
      var c := Process(b, msgs[..k], limit, env).0;
      OneReceipt(c, msgs[k], limit, env);
      OneMoreReceipted(b.receipts, c.receipts, ProcessOne(c, msgs[k], limit, env).0.receipts, msgs[..k], msgs[k]);
    }
  }

  lemma OneReceipt(b: Block, m: Message, limit: uint64, env: Env)
    requires ProcessOne(b, m, limit, env).1
    ensures var rs := ProcessOne(b, m, limit, env).0.receipts;
            |rs| == |b.receipts| + 1 && rs[..|b.receipts|] == b.receipts && rs[|b.receipts|].txHash == m.hash
  {
    hide Write;
    if m.gas <= limit {
      WriteAppends(b, m, env);
    }
  }
}
