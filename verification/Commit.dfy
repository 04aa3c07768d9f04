/** Committing an overlay: the objects handed to the snapshot (state/txn.go, Commit) and the
    fold of those objects into the account and storage tries (state/immutable-trie/trie.go). */
module Commit {
  import opened Words
  import opened Maps
  import opened WorldState
  import opened PlainState

  /** A storage entry; value 0 deletes the slot. */
  datatype Slot = Slot(key: Key, value: Word)

  datatype Committed = Committed(
    address: Address, nonce: uint64, balance: nat, root: Storage, codeHash: Code,
    dirtyCode: bool, deleted: bool, storage: seq<Slot>)

  function SlotMap(slots: seq<Slot>): map<Key, Word> {
    if slots == [] then map[] else
      var last := slots[|slots| - 1];
      SlotMap(slots[..|slots| - 1])[last.key := last.value]
  }

  /** The committed form of one overlay object: its account, and every storage write once. */
  predicate Describes(c: Committed, a: Address, o: Object) {
    && c.address == a
    && c.nonce == o.account.nonce && c.balance == o.account.balance
    && c.root == o.account.root && c.codeHash == o.account.codeHash
    && c.dirtyCode == o.dirtyCode && c.deleted == o.deleted
    && (if o.deleted then c.storage == [] else SlotMap(c.storage) == o.writes && |c.storage| == |o.writes|)
  }

  function CommittedMap(objs: seq<Committed>): map<Address, Committed> {
    if objs == [] then map[] else
      var last := objs[|objs| - 1];
      CommittedMap(objs[..|objs| - 1])[last.address := last]
  }

  /** `objs` lists the overlay: every object of it, each once. */
  predicate Lists(objs: seq<Committed>, objects: Objects) {
    && |objs| == |objects|
    && CommittedMap(objs).Keys == objects.Keys
    && forall a :: a in objects ==> Describes(CommittedMap(objs)[a], a, objects[a])
  }

  // ---------- Folding into the tries ----------

  function FoldSlots(root: Storage, slots: seq<Slot>): Storage {
    if slots == [] then root else
      var last := slots[|slots| - 1];
      PutSlot(FoldSlots(root, slots[..|slots| - 1]), last.key, last.value)
  }

  function FoldedAccount(c: Committed): Account {
    Account(c.nonce, c.balance, FoldSlots(c.root, c.storage), c.codeHash)
  }

  function Fold(base: Base, objs: seq<Committed>): Base {
    if objs == [] then base else
      var last := objs[|objs| - 1];
      var rest := Fold(base, objs[..|objs| - 1]);
      if last.deleted then rest - {last.address} else rest[last.address := FoldedAccount(last)]
  }

  lemma {:induction false} FoldSlotsFolds(root: Storage, slots: seq<Slot>)
    ensures FoldSlots(root, slots) == Folded(root, SlotMap(slots))
  {
    if slots == [] {
      assert Folded(root, map[]) == root;
    } else {
      var n := |slots| - 1;
      FoldSlotsFolds(root, slots[..n]);
      FoldedPut(root, SlotMap(slots[..n]), slots[n].key, slots[n].value);
    }
  }

  lemma {:induction false} FoldAt(base: Base, objs: seq<Committed>, a: Address)
    ensures var m, b := CommittedMap(objs), Fold(base, objs);
            if a !in m then (a in b <==> a in base) && (a in b ==> b[a] == base[a])
            else if m[a].deleted then a !in b
            else a in b && b[a] == FoldedAccount(m[a])
  {
    if objs != [] {
      FoldAt(base, objs[..|objs| - 1], a);
    }
  }

  /** A state at rest: what the next block starts from. */
  function Settled(p: Accounts): Accounts {
    map a | a in p :: p[a].(committed := p[a].storage, suicided := false)
  }

  lemma FoldedAccountSettles(c: Committed, a: Address, o: Object)
    requires Describes(c, a, o) && !o.deleted
    ensures PlainOf(Object(FoldedAccount(c), false, false, false, map[])) ==
            PlainOf(o).(committed := PlainOf(o).storage, suicided := false)
  {
    FoldSlotsFolds(c.root, c.storage);
    var root := FoldSlots(c.root, c.storage);
    assert Folded(root, map[]) == root;
  }

  lemma UntouchedSettles(acc: Account)
    ensures var p := PlainOf(Object(acc, false, false, false, map[]));
            p == p.(committed := p.storage, suicided := false)
  {
    assert Folded(acc.root, map[]) == acc.root;
  }

  lemma CommitFoldsAt(t: TxnState, objs: seq<Committed>, a: Address)
    requires Lists(objs, t.current.objects)
    ensures SameAt(View(Begin(Fold(t.base, objs))), Settled(View(t)), a)
  {
    var b := Fold(t.base, objs);
    FoldAt(t.base, objs, a);
    ViewAt(Begin(b), a);
    ViewAt(t, a);
    if a in t.current.objects {
      if !t.current.objects[a].deleted {
        FoldedAccountSettles(CommittedMap(objs)[a], a, t.current.objects[a]);
      }
    } else if a in t.base {
      UntouchedSettles(t.base[a]);
    }
  }

  lemma CommitFoldsFrom(t: TxnState, objs: seq<Committed>)
    requires Lists(objs, t.current.objects)
    ensures View(Begin(Fold(t.base, objs))) == Settled(View(t))
  {
    forall a: Address ensures SameAt(View(Begin(Fold(t.base, objs))), Settled(View(t)), a) {
      CommitFoldsAt(t, objs, a);
    }
    Extensional(View(Begin(Fold(t.base, objs))), Settled(View(t)));
  }

  /** Folding the committed objects into the base gives exactly the accounts the overlay
      reports once dead and empty objects are cleaned. */
  lemma CommitFolds(s: TxnState, deleteEmpty: bool, objs: seq<Committed>)
    requires Lists(objs, Step(s, Clean(deleteEmpty)).current.objects)
    ensures View(Begin(Fold(s.base, objs))) == Settled(View(Step(s, Clean(deleteEmpty))))
  {
    hide View, Settled, Fold, CleanAll, Lists;
    CommitFoldsFrom(Step(s, Clean(deleteEmpty)), objs);
  }
}
