/** The world state seen by a running block: accounts of a committed base snapshot with a
    copy-on-write overlay of state objects on top (state/state.go, state/txn.go).

    A storage root stands for the storage it commits to and a code hash for the code it is
    the hash of: Keccak and the Merkle trie are taken to be collision free. */
module WorldState {
  import opened Wrappers
  import opened Words

  type Address = nat
  type Key = nat
  /** A 32-byte storage value; 0 is the zero hash. */
  type Word = nat
  type Code = seq<nat>
  datatype Log = Log(address: Address, topics: seq<Word>, data: seq<nat>)

  /** The contents of a storage trie. The trie holds no zero values. */
  type Storage = m: map<Key, Word> | forall k :: k in m ==> m[k] != 0

  datatype Account = Account(nonce: uint64, balance: nat, root: Storage, codeHash: Code)

  /** Value of a state object. `writes` is its storage overlay, 0 marking a deleted slot. */
  datatype Object = Object(account: Account, suicide: bool, deleted: bool, dirtyCode: bool, writes: map<Key, Word>)
  {
    predicate Empty() {
      account.nonce == 0 && account.balance == 0 && account.codeHash == []
    }
  }

  const FRESH: Object := Object(Account(0, 0, map[], []), false, false, false, map[])

  type Base = map<Address, Account>

  type Objects = map<Address, Object>

  /** A slice of logs: the first `len` cells of an array. */
  datatype LogSlice = NoLogs | LogSlice(id: nat, len: nat)

  /** An array behind slices of logs: the cells written so far, and how many it has. */
  datatype LogArray = LogArray(cells: seq<Log>, capacity: nat)

  datatype Overlay = Overlay(objects: Objects, logs: LogSlice, refund: uint64)

  /** The overlay that changes, the ones that were kept, and the arrays of logs, which they
      share. */
  datatype TxnState = TxnState(base: Base, current: Overlay, snapshots: seq<Overlay>, arrays: seq<LogArray>)

  const EMPTY_OVERLAY: Overlay := Overlay(map[], NoLogs, 0)

  function Begin(base: Base): TxnState {
    TxnState(base, EMPTY_OVERLAY, [], [])
  }

  // ---------- Reads ----------

  function ReadRoot(root: Storage, k: Key): Word {
    if k in root then root[k] else 0
  }

  function ReadObject(o: Object, k: Key): Word {
    if k in o.writes then o.writes[k] else ReadRoot(o.account.root, k)
  }

  /** The object at `a`, if it exists: overlay first, then the base. */
  function Lookup(base: Base, objects: Objects, a: Address): Option<Object> {
    if a in objects then
      if objects[a].deleted then None else Some(objects[a])
    else if a in base then
      Some(Object(base[a], false, false, false, map[]))
    else
      None
  }

  function Get(s: TxnState, a: Address): Option<Object> {
    Lookup(s.base, s.current.objects, a)
  }

  function GetOrFresh(s: TxnState, a: Address): Object {
    var o := Get(s, a);
    if o.Some? then o.value else FRESH
  }

  function Balance(s: TxnState, a: Address): nat {
    GetOrFresh(s, a).account.balance
  }

  function Nonce(s: TxnState, a: Address): uint64 {
    GetOrFresh(s, a).account.nonce
  }

  function CodeAt(s: TxnState, a: Address): Code {
    GetOrFresh(s, a).account.codeHash
  }

  function State(s: TxnState, a: Address, k: Key): Word {
    ReadObject(GetOrFresh(s, a), k)
  }

  /** The value the slot had in the base, as long as the account was not recreated. */
  function CommittedState(s: TxnState, a: Address, k: Key): Word {
    ReadRoot(GetOrFresh(s, a).account.root, k)
  }

  function HasSuicided(s: TxnState, a: Address): bool {
    GetOrFresh(s, a).suicide
  }

  // ---------- Logs ----------

  function Contents(arrays: seq<LogArray>, sl: LogSlice): seq<Log> {
    if sl.LogSlice? && sl.id < |arrays| && sl.len <= |arrays[sl.id].cells| then arrays[sl.id].cells[..sl.len]
    else []
  }

  function LogsOf(s: TxnState): seq<Log> {
    Contents(s.arrays, s.current.logs)
  }

  /** The capacity of the array that takes over from a full one of `n` cells. */
  function Grown(n: nat): nat {
    if n == 0 then 1 else if n < 256 then 2 * n else n + (n + 768) / 4
  }

  predicate HasRoom(arrays: seq<LogArray>, sl: LogSlice) {
    && sl.LogSlice? && sl.id < |arrays| && sl.len <= |arrays[sl.id].cells| && sl.len < arrays[sl.id].capacity
  }

  function WriteCell(a: LogArray, n: nat, l: Log): LogArray
    requires n <= |a.cells|
  {
    a.(cells := a.cells[..n] + [l] + if n < |a.cells| then a.cells[n + 1..] else [])
  }

  /** Go's append: in place, into the next cell, while the array has room, whoever else may
      hold a slice of it; else into a larger copy. */
  function Append(arrays: seq<LogArray>, sl: LogSlice, l: Log): (seq<LogArray>, LogSlice) {
    if HasRoom(arrays, sl) then
      (arrays[sl.id := WriteCell(arrays[sl.id], sl.len, l)], LogSlice(sl.id, sl.len + 1))
    else
      var before := Contents(arrays, sl);
      (arrays + [LogArray(before + [l], Grown(|before|))], LogSlice(|arrays|, |before| + 1))
  }

  // ---------- Writes ----------

  datatype Op =
    | AddBalance(addr: Address, amount: nat)
    | SubBalance(addr: Address, amount: nat)
    | SetBalance(addr: Address, amount: nat)
    | AddSealingReward(addr: Address, amount: nat)
    | IncrNonce(addr: Address)
    | SetNonce(addr: Address, nonce: uint64)
    | SetCode(addr: Address, code: Code)
    | SetState(addr: Address, key: Key, value: Word)
    | Touch(addr: Address)
    | CreateAccount(addr: Address)
    | Suicide(addr: Address)
    | EmitLog(log: Log)
    | TakeLogs
    | AddRefund(gas: uint64)
    | SubRefund(gas: uint64)
    | Clean(deleteEmpty: bool)
    | Snapshot
    | Revert(id: nat)

  /** Reverting is only allowed to a snapshot that was taken. */
  predicate Allowed(s: TxnState, op: Op) {
    op.Revert? ==> op.id < |s.snapshots|
  }

  function Insert(s: TxnState, a: Address, o: Object): TxnState {
    s.(current := s.current.(objects := s.current.objects[a := o]))
  }

  function CleanObject(o: Object, deleteEmpty: bool): Object {
    if o.suicide || (o.Empty() && deleteEmpty) then o.(deleted := true) else o
  }

  function CleanAll(objects: Objects, deleteEmpty: bool): Objects {
    map a | a in objects :: CleanObject(objects[a], deleteEmpty)
  }

  /** Operations that load one account, edit its object and put it back. */
  predicate OnAccount(op: Op) {
    !(op.EmitLog? || op.TakeLogs? || op.AddRefund? || op.SubRefund? || op.Clean? || op.Snapshot? || op.Revert?)
  }

  /** The edit made to the loaded (or freshly created) object. */
  function Edit(o: Object, op: Op): Object
    requires OnAccount(op)
    requires op.SubBalance? ==> op.amount <= o.account.balance
  {
    match op
    case AddBalance(_, x) => o.(account := o.account.(balance := o.account.balance + x))
    case SubBalance(_, x) => o.(account := o.account.(balance := o.account.balance - x))
    case SetBalance(_, x) => o.(account := o.account.(balance := x))
    case AddSealingReward(_, x) =>
      if o.suicide then FRESH.(account := FRESH.account.(balance := x))
      else o.(account := o.account.(balance := o.account.balance + x))
    case IncrNonce(_) => o.(account := o.account.(nonce := Wrap(o.account.nonce + 1)))
    case SetNonce(_, n) => o.(account := o.account.(nonce := n))
    case SetCode(_, c) => o.(account := o.account.(codeHash := c), dirtyCode := true)
    case SetState(_, k, v) => o.(writes := o.writes[k := v])
    case Touch(_) => o
    case CreateAccount(_) => FRESH.(account := FRESH.account.(balance := o.account.balance))
    case Suicide(_) => o.(suicide := true, account := o.account.(balance := 0))
  }

  /** Subtracting nothing, subtracting too much and suicide of a missing account change nothing. */
  predicate Skipped(s: TxnState, op: Op) {
    || (op.SubBalance? && (op.amount == 0 || Balance(s, op.addr) < op.amount))
    || (op.Suicide? && Get(s, op.addr).None?)
  }

  function Step(s: TxnState, op: Op): TxnState
    requires Allowed(s, op)
  {
    if OnAccount(op) then
      if Skipped(s, op) then s else Insert(s, op.addr, Edit(GetOrFresh(s, op.addr), op))
    else
      match op
      case EmitLog(l) =>
        var (arrays, logs) := Append(s.arrays, s.current.logs, l);
        s.(current := s.current.(logs := logs), arrays := arrays)
      case TakeLogs => s.(current := s.current.(logs := NoLogs))
      case AddRefund(g) => s.(current := s.current.(refund := Wrap(s.current.refund + g)))
      case SubRefund(g) => s.(current := s.current.(refund := Wrap(s.current.refund - g)))
      case Clean(deleteEmpty) =>
        s.(current := s.current.(objects := CleanAll(s.current.objects, deleteEmpty), refund := 0))
      case Snapshot => s.(snapshots := s.snapshots + [s.current])
      case Revert(id) => s.(current := s.snapshots[id])
  }

  predicate RunAllowed(n: nat, ops: seq<Op>)
    decreases |ops|
  {
    ops == [] ||
    ((ops[0].Revert? ==> ops[0].id < n) && RunAllowed(if ops[0].Snapshot? then n + 1 else n, ops[1..]))
  }

  function Run(s: TxnState, ops: seq<Op>): TxnState
    requires RunAllowed(|s.snapshots|, ops)
    decreases |ops|
  {
    if ops == [] then s else Run(Step(s, ops[0]), ops[1..])
  }

  // ---------- Snapshots ----------

  lemma StepKeepsSnapshots(s: TxnState, op: Op)
    requires Allowed(s, op)
    ensures s.snapshots <= Step(s, op).snapshots
    ensures Step(s, op).base == s.base
  {
  }

  lemma {:induction false} RunKeepsSnapshots(s: TxnState, ops: seq<Op>)
    requires RunAllowed(|s.snapshots|, ops)
    ensures s.snapshots <= Run(s, ops).snapshots
    ensures Run(s, ops).base == s.base
    decreases |ops|
  {
    if ops != [] {
      StepKeepsSnapshots(s, ops[0]);
      RunKeepsSnapshots(Step(s, ops[0]), ops[1..]);
    }
  }

  /** Whatever happens after a snapshot, further snapshots and reverts in any order
      included, reverting to it restores every object, the refund counter, and which slice of
      logs is held; what that slice reads is a matter of module `Logs`. */
  lemma RevertRestores(s: TxnState, ops: seq<Op>)
    requires RunAllowed(|s.snapshots| + 1, ops)
    ensures var t := Run(Step(s, Snapshot), ops);
            && Allowed(t, Revert(|s.snapshots|))
            && Step(t, Revert(|s.snapshots|)).current == s.current
            && Step(t, Revert(|s.snapshots|)).base == s.base
  {
    var s' := Step(s, Snapshot);
    RunKeepsSnapshots(s', ops);
    assert s'.snapshots[|s.snapshots|] == s.current;
  }
}
