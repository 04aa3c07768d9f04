/** The reference the overlay is measured against: one full map from addresses to accounts,
    updated directly, with whole copies as snapshots. */
module PlainState {
  import opened Wrappers
  import opened Words
  import opened WorldState

  datatype PlainAccount = PlainAccount(
    nonce: uint64, balance: nat, code: Code,
    storage: Storage, committed: Storage, suicided: bool)
  {
    predicate Empty() {
      nonce == 0 && balance == 0 && code == []
    }
  }

  const NEW_ACCOUNT := PlainAccount(0, 0, [], map[], map[], false)

  type Accounts = map<Address, PlainAccount>

  /** `touched` are the addresses written since the base. Logs are left to module `Logs`. */
  datatype Plain = Plain(accounts: Accounts, touched: set<Address>, refund: uint64)
  datatype PlainTxn = PlainTxn(current: Plain, snapshots: seq<Plain>)

  function At(p: Accounts, a: Address): PlainAccount {
    if a in p then p[a] else NEW_ACCOUNT
  }

  function PutSlot(st: Storage, k: Key, v: Word): Storage {
    if v == 0 then st - {k} else st[k := v]
  }

  function PlainEdit(acc: PlainAccount, op: Op): PlainAccount
    requires OnAccount(op)
    requires op.SubBalance? ==> op.amount <= acc.balance
  {
    match op
    case AddBalance(_, x) => acc.(balance := acc.balance + x)
    case SubBalance(_, x) => acc.(balance := acc.balance - x)
    case SetBalance(_, x) => acc.(balance := x)
    case AddSealingReward(_, x) =>
      if acc.suicided then NEW_ACCOUNT.(balance := x) else acc.(balance := acc.balance + x)
    case IncrNonce(_) => acc.(nonce := Wrap(acc.nonce + 1))
    case SetNonce(_, n) => acc.(nonce := n)
    case SetCode(_, c) => acc.(code := c)
    case SetState(_, k, v) => acc.(storage := PutSlot(acc.storage, k, v))
    case Touch(_) => acc
    case CreateAccount(_) => NEW_ACCOUNT.(balance := acc.balance)
    case Suicide(_) => acc.(suicided := true, balance := 0)
  }

  predicate PlainSkipped(p: Accounts, op: Op) {
    || (op.SubBalance? && (op.amount == 0 || At(p, op.addr).balance < op.amount))
    || (op.Suicide? && op.addr !in p)
  }

  predicate Survives(acc: PlainAccount, deleteEmpty: bool) {
    !acc.suicided && !(acc.Empty() && deleteEmpty)
  }

  /** The accounts left when the touched ones that died or stayed empty are removed. */
  function Cleaned(p: Accounts, touched: set<Address>, deleteEmpty: bool): Accounts {
    map a | a in p && (a in touched ==> Survives(p[a], deleteEmpty)) :: p[a]
  }

  function PlainStep(t: PlainTxn, op: Op): PlainTxn
    requires op.Revert? ==> op.id < |t.snapshots|
  {
    var c := t.current;
    if OnAccount(op) then
      if PlainSkipped(c.accounts, op) then t else
        t.(current := c.(accounts := c.accounts[op.addr := PlainEdit(At(c.accounts, op.addr), op)],
                         touched := c.touched + {op.addr}))
    else
      match op
      case EmitLog(l) => t
      case TakeLogs => t
      case AddRefund(g) => t.(current := c.(refund := Wrap(c.refund + g)))
      case SubRefund(g) => t.(current := c.(refund := Wrap(c.refund - g)))
      case Clean(deleteEmpty) =>
        t.(current := c.(accounts := Cleaned(c.accounts, c.touched, deleteEmpty), refund := 0))
      case Snapshot => t.(snapshots := t.snapshots + [c])
      case Revert(id) => t.(current := t.snapshots[id])
  }

  function PlainRun(t: PlainTxn, ops: seq<Op>): PlainTxn
    requires RunAllowed(|t.snapshots|, ops)
    decreases |ops|
  {
    if ops == [] then t else PlainRun(PlainStep(t, ops[0]), ops[1..])
  }

  // ---------- What an overlay stands for ----------

  /** A storage trie with the overlay's slot writes folded in. */
  function Folded(root: Storage, writes: map<Key, Word>): Storage {
    map k | k in root.Keys + writes.Keys && (if k in writes then writes[k] else root[k]) != 0
      :: if k in writes then writes[k] else root[k]
  }

  function PlainOf(o: Object): PlainAccount {
    PlainAccount(o.account.nonce, o.account.balance, o.account.codeHash,
                 Folded(o.account.root, o.writes), o.account.root, o.suicide)
  }

  function ViewOf(base: Base, objects: Objects): Accounts {
    map a | a in base.Keys + objects.Keys && Lookup(base, objects, a).Some?
      :: PlainOf(Lookup(base, objects, a).value)
  }

  function View(s: TxnState): Accounts {
    ViewOf(s.base, s.current.objects)
  }

  function AbsOverlay(base: Base, ov: Overlay): Plain {
    Plain(ViewOf(base, ov.objects), ov.objects.Keys, ov.refund)
  }

  function AbsAll(base: Base, ovs: seq<Overlay>): seq<Plain> {
    seq(|ovs|, i requires 0 <= i < |ovs| => AbsOverlay(base, ovs[i]))
  }

  function Abs(s: TxnState): PlainTxn {
    PlainTxn(AbsOverlay(s.base, s.current), AbsAll(s.base, s.snapshots))
  }

  // ---------- Refinement ----------

  lemma FreshIsNew()
    ensures PlainOf(FRESH) == NEW_ACCOUNT
  {
    assert Folded(map[], map[]) == map[];
  }

  lemma ViewAt(s: TxnState, a: Address)
    ensures a in View(s) <==> Get(s, a).Some?
    ensures At(View(s), a) == PlainOf(GetOrFresh(s, a))
  {
    FreshIsNew();
  }

  lemma InsertRefines(s: TxnState, a: Address, o: Object)
    requires !o.deleted
    ensures View(Insert(s, a, o)) == View(s)[a := PlainOf(o)]
  {
    var v, w := View(Insert(s, a, o)), View(s)[a := PlainOf(o)];
    forall b
      ensures b in v <==> b in w
      ensures b in v ==> v[b] == w[b]
    {
      assert Get(Insert(s, a, o), b) == if b == a then Some(o) else Get(s, b);
    }
  }

  lemma FoldedPut(root: Storage, writes: map<Key, Word>, k: Key, v: Word)
    ensures Folded(root, writes[k := v]) == PutSlot(Folded(root, writes), k, v)
  {
  }

  lemma EditRefines(o: Object, op: Op)
    requires OnAccount(op)
    requires op.SubBalance? ==> op.amount <= o.account.balance
    ensures PlainOf(Edit(o, op)) == PlainEdit(PlainOf(o), op)
    ensures !o.deleted ==> !Edit(o, op).deleted
  {
    FreshIsNew();
    if op.SetState? {
      FoldedPut(o.account.root, o.writes, op.key, op.value);
    }
  }

  lemma CleanAt(s: TxnState, deleteEmpty: bool, a: Address)
    ensures var o, o' := Get(s, a), Get(Step(s, Clean(deleteEmpty)), a);
            o' == if o.Some? && a in s.current.objects && !Survives(PlainOf(o.value), deleteEmpty) then None else o
  {
  }

  lemma CleanRefines(s: TxnState, deleteEmpty: bool)
    ensures Abs(Step(s, Clean(deleteEmpty))) == PlainStep(Abs(s), Clean(deleteEmpty))
  {
    CleanView(s, deleteEmpty);
  }

  lemma CleanView(s: TxnState, deleteEmpty: bool)
    ensures View(Step(s, Clean(deleteEmpty))) == Cleaned(View(s), s.current.objects.Keys, deleteEmpty)
  {
    var v, w := View(Step(s, Clean(deleteEmpty))), Cleaned(View(s), s.current.objects.Keys, deleteEmpty);
    forall a
      ensures a in v <==> a in w
      ensures a in v ==> v[a] == w[a]
    {
      CleanAt(s, deleteEmpty, a);
    }
  }

  /** The accounts after an account operation, and what it leaves alone. */
  lemma AccountStepView(s: TxnState, op: Op)
    requires OnAccount(op)
    ensures Skipped(s, op) == PlainSkipped(View(s), op)
    ensures Skipped(s, op) ==> Step(s, op) == s
    ensures !Skipped(s, op) ==>
              && View(Step(s, op)) == View(s)[op.addr := PlainEdit(At(View(s), op.addr), op)]
              && Step(s, op).current.objects.Keys == s.current.objects.Keys + {op.addr}
    ensures Step(s, op).base == s.base && Step(s, op).snapshots == s.snapshots
    ensures Step(s, op).current.refund == s.current.refund
  {
    ViewAt(s, op.addr);
    if !Skipped(s, op) {
      var o := GetOrFresh(s, op.addr);
      EditRefines(o, op);
      InsertRefines(s, op.addr, Edit(o, op));
    }
  }

  lemma AccountStepRefines(s: TxnState, op: Op)
    requires OnAccount(op)
    ensures Abs(Step(s, op)) == PlainStep(Abs(s), op)
  {
    AccountStepView(s, op);
  }

  lemma SnapshotRefines(s: TxnState)
    ensures Abs(Step(s, Snapshot)) == PlainStep(Abs(s), Snapshot)
  {
    assert AbsAll(s.base, s.snapshots + [s.current]) ==
           AbsAll(s.base, s.snapshots) + [AbsOverlay(s.base, s.current)];
  }

  lemma RevertRefines(s: TxnState, id: nat)
    requires id < |s.snapshots|
    ensures Abs(Step(s, Revert(id))) == PlainStep(Abs(s), Revert(id))
  {
  }

  lemma CountersRefine(s: TxnState, op: Op)
    requires op.EmitLog? || op.TakeLogs? || op.AddRefund? || op.SubRefund?
    ensures Abs(Step(s, op)) == PlainStep(Abs(s), op)
  {
  }

  /** One operation on the overlay does to the map it stands for exactly what the plain
      operation does to a plain map. */
  lemma StepRefines(s: TxnState, op: Op)
    requires Allowed(s, op)
    ensures Abs(Step(s, op)) == PlainStep(Abs(s), op)
  {
    if OnAccount(op) {
      AccountStepRefines(s, op);
    } else {
      match op
      case Clean(d) => CleanRefines(s, d);
      case Snapshot => SnapshotRefines(s);
      case Revert(id) => RevertRefines(s, id);
      case _ => CountersRefine(s, op);
    }
  }

  /** For every run of writes, touches, suicides, snapshots and reverts the overlay stands
      for the map a plain full state would hold. */
  lemma {:induction false} RunRefines(s: TxnState, ops: seq<Op>)
    requires RunAllowed(|s.snapshots|, ops)
    ensures Abs(Run(s, ops)) == PlainRun(Abs(s), ops)
    decreases |ops|
  {
    if ops != [] {
      StepRefines(s, ops[0]);
      RunRefines(Step(s, ops[0]), ops[1..]);
    }
  }

  /** Every read of the overlay is the read of the map it stands for. */
  lemma ReadsAgree(s: TxnState, a: Address, k: Key)
    ensures var acc := At(View(s), a);
            && Balance(s, a) == acc.balance
            && Nonce(s, a) == acc.nonce
            && CodeAt(s, a) == acc.code
            && State(s, a, k) == ReadRoot(acc.storage, k)
            && CommittedState(s, a, k) == ReadRoot(acc.committed, k)
            && HasSuicided(s, a) == acc.suicided
            && (Get(s, a).Some? <==> a in View(s))
  {
    ViewAt(s, a);
  }
}
