/** The overlay as it lives in memory (state/txn.go): trees of shared `StateObject`
    references. A snapshot keeps a tree whose objects are the very objects the running tree
    holds, so it stays intact only because every write copies the object it edits. */
module TxnHeap {
  import opened Words
  import opened WorldState
  import opened Sstore
  import opened Commit

  class StateObject {
    var account: Account
    var suicide: bool
    var deleted: bool
    var dirtyCode: bool
    var writes: map<Key, Word>

    ghost function Value(): Object
      reads this
    {
      Object(account, suicide, deleted, dirtyCode, writes)
    }

    constructor (account: Account)
      ensures Value() == Object(account, false, false, false, map[])
    {
      this.account := account;
      suicide, deleted, dirtyCode, writes := false, false, false, map[];
    }

    method Copy() returns (r: StateObject)
      ensures fresh(r) && r.Value() == Value()
    {
      r := new StateObject(account);
      r.suicide, r.deleted, r.dirtyCode, r.writes := suicide, deleted, dirtyCode, writes;
    }
  }

  /** An immutable radix tree: the references are shared between trees. */
  datatype Tree = Tree(objects: map<Address, StateObject>, logs: LogSlice, refund: uint64)

  ghost function ValueOf(t: Tree): Overlay
    reads t.objects.Values
  {
    Overlay(map a | a in t.objects :: t.objects[a].Value(), t.logs, t.refund)
  }

  lemma ValueOfInserted(t: Tree, a: Address, o: StateObject)
    ensures ValueOf(t.(objects := t.objects[a := o])) ==
            ValueOf(t).(objects := ValueOf(t).objects[a := o.Value()])
  {
  }

  /** An object that cleaning removes. */
  predicate Dies(o: Object, deleteEmpty: bool) {
    o.suicide || (o.Empty() && deleteEmpty)
  }

  ghost function Marked(objects: Objects, done: seq<Address>): Objects {
    map a | a in objects :: if a in done then objects[a].(deleted := true) else objects[a]
  }

  lemma MarkedNone(objects: Objects)
    ensures Marked(objects, []) == objects
  {
  }

  lemma MarkedOneMore(objects: Objects, done: seq<Address>, i: nat)
    requires i < |done| && done[i] in objects
    ensures var m := Marked(objects, done[..i]);
            Marked(objects, done[..i + 1]) == m[done[i] := m[done[i]].(deleted := true)]
  {
    assert done[..i + 1] == done[..i] + [done[i]];
  }

  lemma MarkedAll(objects: Objects, done: seq<Address>, deleteEmpty: bool)
    requires forall a :: a in done <==> a in objects && Dies(objects[a], deleteEmpty)
    ensures Marked(objects, done) == CleanAll(objects, deleteEmpty)
  {
  }

  /** The objects at the addresses in `done` are listed. */
  ghost predicate ListsPart(objs: seq<Committed>, objects: Objects, done: set<Address>) {
    && done <= objects.Keys
    && |objs| == |done|
    && CommittedMap(objs).Keys == done
    && forall a :: a in done ==> Describes(CommittedMap(objs)[a], a, objects[a])
  }

  lemma SlotMapOneMore(storage: seq<Slot>, writes: map<Key, Word>, rest: set<Key>, k: Key)
    requires SlotMap(storage) == writes - rest && k in rest && rest <= writes.Keys
    ensures SlotMap(storage + [Slot(k, writes[k])]) == writes - (rest - {k})
  {
    assert (storage + [Slot(k, writes[k])])[..|storage|] == storage;
  }

  lemma ListsNone(objects: Objects)
    ensures ListsPart([], objects, {})
  {
  }

  lemma NoSlots()
    ensures SlotMap([]) == map[]
  {
  }

  lemma ListsWhole(objs: seq<Committed>, objects: Objects)
    requires ListsPart(objs, objects, objects.Keys)
    ensures Lists(objs, objects)
  {
  }

  lemma ListsOneMore(objs: seq<Committed>, objects: Objects, done: set<Address>, a: Address, c: Committed)
    requires ListsPart(objs, objects, done)
    requires a in objects && a !in done && Describes(c, a, objects[a])
    ensures ListsPart(objs + [c], objects, done + {a})
  {
    assert (objs + [c])[..|objs|] == objs;
    assert CommittedMap(objs + [c]) == CommittedMap(objs)[a := c];
  }

  class Txn {
    const base: Base
    var txn: Tree
    var snapshots: seq<Tree>
    /** The arrays behind the log slices of all trees; slices that name the same array share it. */
    var arrays: seq<LogArray>
    ghost var model: TxnState

    ghost predicate Valid()
      reads this, txn.objects.Values, set i, o | 0 <= i < |snapshots| && o in snapshots[i].objects.Values :: o
    {
      && model.base == base && model.arrays == arrays
      && model.current == ValueOf(txn)
      && |model.snapshots| == |snapshots|
      && forall i :: 0 <= i < |snapshots| ==> model.snapshots[i] == ValueOf(snapshots[i])
    }

    constructor (base: Base)
      ensures Valid() && model == Begin(base)
    {
      this.base := base;
      txn := Tree(map[], NoLogs, 0);
      snapshots, arrays := [], [];
      model := Begin(base);
    }

    method TakeSnapshot() returns (id: nat)
      requires Valid()
      modifies this
      ensures Valid()
      ensures id == |old(model).snapshots| && model == Step(old(model), Snapshot)
    {
      id := |snapshots|;
      snapshots := snapshots + [txn];
      model := Step(model, Snapshot);
    }

    method RevertToSnapshot(id: nat)
      requires Valid()
      requires id < |model.snapshots|
      modifies this
      ensures Valid()
      ensures model == Step(old(model), Revert(id))
    {
      txn := snapshots[id];
      model := Step(model, Revert(id));
    }

    /** A private copy of the object at `a`. */
    method GetStateObject(a: Address) returns (o: StateObject?)
      requires Valid()
      ensures o == null <==> Get(model, a).None?
      ensures o != null ==> fresh(o) && o.Value() == Get(model, a).value
    {
      if a in txn.objects {
        if txn.objects[a].deleted {
          return null;
        }
        o := txn.objects[a].Copy();
      } else if a in base {
        o := new StateObject(base[a]);
      } else {
        o := null;
      }
    }

    method LoadOrCreate(a: Address) returns (o: StateObject)
      requires Valid()
      ensures fresh(o) && o.Value() == GetOrFresh(model, a)
    {
      var found := GetStateObject(a);
      if found == null {
        o := new StateObject(Account(0, 0, map[], []));
      } else {
        o := found;
      }
    }

    /** Puts an edited private copy into the running tree. */
    method InsertObject(a: Address, o: StateObject, ghost op: Op)
      requires Valid()
      requires OnAccount(op) && op.addr == a && !Skipped(model, op)
      requires o.Value() == Edit(GetOrFresh(model, a), op)
      modifies this
      ensures Valid() && model == Step(old(model), op)
    {
      hide Valid;
      Put(a, o);
    }

    /** The copy replaces what the tree held; trees of snapshots keep theirs. */
    method Put(a: Address, o: StateObject)
      requires Valid()
      modifies this
      ensures Valid()
      ensures var was := old(model);
              model == was.(current := was.current.(objects := was.current.objects[a := o.Value()]))
    {
      ValueOfInserted(txn, a, o);
      txn := txn.(objects := txn.objects[a := o]);
      model := model.(current := model.current.(objects := model.current.objects[a := o.Value()]));
    }

    method AddBalance(a: Address, x: nat)
      requires Valid()
      modifies this
      ensures Valid() && model == Step(old(model), Op.AddBalance(a, x))
    {
      var o := LoadOrCreate(a);
      o.account := o.account.(balance := o.account.balance + x);
      InsertObject(a, o, Op.AddBalance(a, x));
    }

    /** Fails, changing nothing, exactly when the balance is smaller than the amount. */
    method SubBalance(a: Address, x: nat) returns (ok: bool)
      requires Valid()
      modifies this
      ensures Valid() && model == Step(old(model), Op.SubBalance(a, x))
      ensures ok <==> x <= Balance(old(model), a)
    {
      if x == 0 {
        return true;
      }
      var o := LoadOrCreate(a);
      if o.account.balance < x {
        return false;
      }
      o.account := o.account.(balance := o.account.balance - x);
      InsertObject(a, o, Op.SubBalance(a, x));
      ok := true;
    }

    method SetBalance(a: Address, x: nat)
      requires Valid()
      modifies this
      ensures Valid() && model == Step(old(model), Op.SetBalance(a, x))
    {
      var o := LoadOrCreate(a);
      o.account := o.account.(balance := x);
      InsertObject(a, o, Op.SetBalance(a, x));
    }

    method AddSealingReward(a: Address, x: nat)
      requires Valid()
      modifies this
      ensures Valid() && model == Step(old(model), Op.AddSealingReward(a, x))
    {
      var o := LoadOrCreate(a);
      if o.suicide {
        o := new StateObject(Account(0, x, map[], []));
      } else {
        o.account := o.account.(balance := o.account.balance + x);
      }
      InsertObject(a, o, Op.AddSealingReward(a, x));
    }

    method IncrNonce(a: Address)
      requires Valid()
      modifies this
      ensures Valid() && model == Step(old(model), Op.IncrNonce(a))
    {
      var o := LoadOrCreate(a);
      o.account := o.account.(nonce := Wrap(o.account.nonce + 1));
      InsertObject(a, o, Op.IncrNonce(a));
    }

    method SetNonce(a: Address, n: uint64)
      requires Valid()
      modifies this
      ensures Valid() && model == Step(old(model), Op.SetNonce(a, n))
    {
      var o := LoadOrCreate(a);
      o.account := o.account.(nonce := n);
      InsertObject(a, o, Op.SetNonce(a, n));
    }

    method SetCode(a: Address, c: Code)
      requires Valid()
      modifies this
      ensures Valid() && model == Step(old(model), Op.SetCode(a, c))
    {
      var o := LoadOrCreate(a);
      o.account, o.dirtyCode := o.account.(codeHash := c), true;
      InsertObject(a, o, Op.SetCode(a, c));
    }

    method SetState(a: Address, k: Key, v: Word)
      requires Valid()
      modifies this
      ensures Valid() && model == Step(old(model), Op.SetState(a, k, v))
    {
      var o := LoadOrCreate(a);
      o.writes := o.writes[k := v];
      InsertObject(a, o, Op.SetState(a, k, v));
    }

    method TouchAccount(a: Address)
      requires Valid()
      modifies this
      ensures Valid() && model == Step(old(model), Op.Touch(a))
    {
      var o := LoadOrCreate(a);
      InsertObject(a, o, Op.Touch(a));
    }

    method CreateAccount(a: Address)
      requires Valid()
      modifies this
      ensures Valid() && model == Step(old(model), Op.CreateAccount(a))
    {
      var prev := GetStateObject(a);
      var o := new StateObject(Account(0, if prev == null then 0 else prev.account.balance, map[], []));
      InsertObject(a, o, Op.CreateAccount(a));
    }

    method Suicide(a: Address) returns (suicided: bool)
      requires Valid()
      modifies this
      ensures Valid() && model == Step(old(model), Op.Suicide(a))
      ensures suicided <==> Get(old(model), a).Some? && !WorldState.HasSuicided(old(model), a)
    {
      var o := GetStateObject(a);
      suicided := o != null && !o.suicide;
      if o != null {
        o.suicide, o.account := true, o.account.(balance := 0);
        InsertObject(a, o, Op.Suicide(a));
      }
    }

    /** Appends to the slice, in place while its array has room. */
    method EmitLog(l: Log)
      requires Valid()
      modifies this
      ensures Valid() && model == Step(old(model), Op.EmitLog(l))
    {
      var held := txn.logs;
      if HasRoom(arrays, held) {
        arrays := arrays[held.id := WriteCell(arrays[held.id], held.len, l)];
        txn := txn.(logs := LogSlice(held.id, held.len + 1));
      } else {
        var copied := Contents(arrays, held);
        txn := txn.(logs := LogSlice(|arrays|, |copied| + 1));
        arrays := arrays + [LogArray(copied + [l], Grown(|copied|))];
      }
      model := Step(model, Op.EmitLog(l));
    }

    /** Hands out the collected logs and starts over. */
    method Logs() returns (logs: seq<Log>)
      requires Valid()
      modifies this
      ensures Valid() && model == Step(old(model), Op.TakeLogs)
      ensures logs == LogsOf(old(model))
    {
      logs := Contents(arrays, txn.logs);
      txn := txn.(logs := NoLogs);
      model := Step(model, Op.TakeLogs);
    }

    method AddRefund(g: uint64)
      requires Valid()
      modifies this
      ensures Valid() && model == Step(old(model), Op.AddRefund(g))
    {
      txn := txn.(refund := Wrap(txn.refund + g));
      model := Step(model, Op.AddRefund(g));
    }

    method SubRefund(g: uint64)
      requires Valid()
      modifies this
      ensures Valid() && model == Step(old(model), Op.SubRefund(g))
    {
      txn := txn.(refund := Wrap(txn.refund - g));
      model := Step(model, Op.SubRefund(g));
    }

    // ---------- Reads ----------

    method GetBalance(a: Address) returns (x: nat)
      requires Valid()
      ensures Valid() && x == Balance(model, a)
    {
      var o := LoadOrCreate(a);
      x := o.account.balance;
    }

    method GetNonce(a: Address) returns (n: uint64)
      requires Valid()
      ensures Valid() && n == Nonce(model, a)
    {
      var o := LoadOrCreate(a);
      n := o.account.nonce;
    }

    method GetCodeHash(a: Address) returns (c: Code)
      requires Valid()
      ensures Valid() && c == CodeAt(model, a)
    {
      var o := LoadOrCreate(a);
      c := o.account.codeHash;
    }

    method GetState(a: Address, k: Key) returns (v: Word)
      requires Valid()
      ensures Valid() && v == State(model, a, k)
    {
      var o := LoadOrCreate(a);
      v := if k in o.writes then o.writes[k] else ReadRoot(o.account.root, k);
    }

    method GetCommittedState(a: Address, k: Key) returns (v: Word)
      requires Valid()
      ensures Valid() && v == CommittedState(model, a, k)
    {
      var o := LoadOrCreate(a);
      v := ReadRoot(o.account.root, k);
    }

    method HasSuicided(a: Address) returns (b: bool)
      requires Valid()
      ensures Valid() && b == WorldState.HasSuicided(model, a)
    {
      var o := LoadOrCreate(a);
      b := o.suicide;
    }

    method GetRefund() returns (g: uint64)
      requires Valid()
      ensures Valid() && g == model.current.refund
    {
      g := txn.refund;
    }

    // ---------- Storage writes ----------

    method SetStorage(a: Address, k: Key, v: Word, f: Forks) returns (status: StorageStatus)
      requires Valid()
      modifies this
      ensures Valid() && model == Sstore.SetStorage(old(model), a, k, v, f)
      ensures status == Status(CommittedState(old(model), a, k), State(old(model), a, k), v, f)
    {
      hide Valid;
      var current := GetState(a, k);
      if current == v {
        return Unchanged;
      }
      var original := GetCommittedState(a, k);
      SetState(a, k, v);
      status := Meter(original, current, v, f);
    }

    /** The metering that follows a write that changed the slot. */
    method Meter(original: Word, current: Word, v: Word, f: Forks) returns (status: StorageStatus)
      requires Valid()
      requires current != v
      modifies this
      ensures Valid()
      ensures model == WithRefund(old(model), Wrap(old(model).current.refund + RefundDelta(original, current, v, f)))
      ensures status == Status(original, current, v, f)
    {
      hide Valid;
      if LegacyMetering(f) || original == current {
        if current == 0 {
          return Added;
        }
        if v == 0 {
          AddRefund(CLEAR_REFUND);
          return Deleted;
        }
        return Modified;
      }
      if original != 0 {
        if current == 0 {
          SubRefund(CLEAR_REFUND);
        } else if v == 0 {
          AddRefund(CLEAR_REFUND);
        }
      }
      if original == v {
        if original == 0 {
          AddRefund(if f.istanbul then 19200 else 19800);
        } else {
          AddRefund(if f.istanbul then 4200 else 4800);
        }
      }
      status := ModifiedAgain;
    }

    // ---------- End of a transaction, end of a block ----------

    method MarkDeleted(a: Address)
      requires Valid() && a in model.current.objects
      modifies this
      ensures Valid()
      ensures var objects := old(model).current.objects;
              model == old(model).(current := old(model).current.(
                objects := objects[a := objects[a].(deleted := true)]))
    {
      ObjectsMatch();
      var o := txn.objects[a].Copy();
      o.deleted := true;
      Put(a, o);
    }

    /** Marks suicided objects, and empty ones if asked, as deleted. The objects a snapshot
        still holds keep their old marks. */
    method CleanDeleteObjects(deleteEmpty: bool)
      requires Valid()
      modifies this
      ensures Valid() && model == Step(old(model), Clean(deleteEmpty))
    {
      ghost var was := model.current.objects;
      var remove := FindDead(deleteEmpty);
      MarkedNone(was);
      hide Valid;
      for i := 0 to |remove|
        invariant Valid()
        invariant model == old(model).(current := old(model).current.(objects := Marked(was, remove[..i])))
      {
        assert remove[i] in remove;
        MarkDeleted(remove[i]);
        MarkedOneMore(was, remove, i);
      }
      assert remove[..|remove|] == remove;
      MarkedAll(was, remove, deleteEmpty);
      ClearRefund();
    }

    method ClearRefund()
      requires Valid()
      modifies this
      ensures Valid() && model == WithRefund(old(model), 0)
    {
      txn := txn.(refund := 0);
      model := WithRefund(model, 0);
    }

    /** The walk over the tree that collects what to remove. */
    method FindDead(deleteEmpty: bool) returns (remove: seq<Address>)
      requires Valid()
      ensures forall a :: a in remove <==> a in model.current.objects && Dies(model.current.objects[a], deleteEmpty)
    {
      remove := [];
      var rest := txn.objects.Keys;
      while rest != {}
        invariant rest <= txn.objects.Keys
        invariant forall a :: a in remove <==>
                    a in txn.objects && a !in rest && Dies(model.current.objects[a], deleteEmpty)
        decreases rest
      {
        var a :| a in rest;
        rest := rest - {a};
        var o := txn.objects[a];
        if o.suicide || (o.account.nonce == 0 && o.account.balance == 0 && o.account.codeHash == [] && deleteEmpty) {
          remove := remove + [a];
        }
      }
    }

    /** Cleans, then lists every object of the overlay with its storage writes. */
    method CommitObjects(deleteEmpty: bool) returns (objs: seq<Committed>)
      requires Valid()
      modifies this
      ensures Valid() && model == Step(old(model), Clean(deleteEmpty))
      ensures Lists(objs, model.current.objects)
    {
      CleanDeleteObjects(deleteEmpty);
      objs := ListObjects();
    }

    lemma ObjectsMatch()
      requires Valid()
      ensures model.current.objects.Keys == txn.objects.Keys
      ensures forall a :: a in txn.objects ==> txn.objects[a].Value() == model.current.objects[a]
    {
    }

    method ListObjects() returns (objs: seq<Committed>)
      requires Valid()
      ensures Lists(objs, model.current.objects)
    {
      hide Lists;
      ObjectsMatch();
      objs := ListTree(txn.objects, model.current.objects);
    }

    /** Visits every object once. */
    static method ListTree(objects: map<Address, StateObject>, ghost values: Objects) returns (objs: seq<Committed>)
      requires values.Keys == objects.Keys && forall a :: a in objects ==> objects[a].Value() == values[a]
      ensures Lists(objs, values)
    {
      hide ListsPart, Describes, Lists, CommittedMap;
      objs := [];
      ghost var done := {};
      var rest := objects.Keys;
      ListsNone(values);
      while rest != {}
        invariant rest <= objects.Keys && done == objects.Keys - rest
        invariant ListsPart(objs, values, done)
        decreases rest
      {
        var a :| a in rest;
        var c := CommitOne(a, objects[a]);
        ListsOneMore(objs, values, done, a, c);
        objs, done := objs + [c], done + {a};
        rest := rest - {a};
      }
      assert done == values.Keys;
      ListsWhole(objs, values);
    }

    static method CommitOne(a: Address, o: StateObject) returns (c: Committed)
      ensures Describes(c, a, o.Value())
    {
      hide SlotMap;
      NoSlots();
      var storage: seq<Slot> := [];
      if !o.deleted {
        var rest := o.writes.Keys;
        while rest != {}
          invariant rest <= o.writes.Keys
          invariant SlotMap(storage) == o.writes - rest
          invariant |storage| + |rest| == |o.writes|
          decreases rest
        {
          var k :| k in rest;
          SlotMapOneMore(storage, o.writes, rest, k);
          rest := rest - {k};
          storage := storage + [Slot(k, o.writes[k])];
        }
        assert o.writes - {} == o.writes;
      }
      c := Committed(a, o.account.nonce, o.account.balance, o.account.root, o.account.codeHash,
                     o.dirtyCode, o.deleted, storage);
    }
  }
}
