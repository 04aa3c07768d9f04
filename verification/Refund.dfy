/** Storage writes and the gas refund counter (state/txn.go, SetStorage; the "Specification"
    sections of EIP-1283 and EIP-2200). */
module Sstore {
  import opened Words
  import opened WorldState

  datatype Forks = Forks(homestead: bool, eip155: bool, eip158: bool,
                         constantinople: bool, petersburg: bool, istanbul: bool)

  datatype StorageStatus = Unchanged | Modified | ModifiedAgain | Added | Deleted

  const CLEAR_REFUND: uint64 := 15000

  predicate LegacyMetering(f: Forks) {
    !f.istanbul && (f.petersburg || !f.constantinople)
  }

  /** Extra refund for bringing a slot back to its original value. */
  function ResetBonus(original: Word, f: Forks): uint64 {
    if original == 0 then (if f.istanbul then 19200 else 19800)
    else (if f.istanbul then 4200 else 4800)
  }

  /** The net effect of one write on the refund counter, before wrapping: a slot that ends
      cleared earns the refund, a slot that stops being cleared gives it back, and a slot
      brought back to its original value earns a bonus. */
  function RefundDelta(original: Word, current: Word, v: Word, f: Forks): int {
    if current == v then 0
    else if LegacyMetering(f) then
      if current != 0 && v == 0 then CLEAR_REFUND else 0
    else
      (if original != 0 && v == 0 then CLEAR_REFUND else 0)
      - (if original != 0 && current == 0 then CLEAR_REFUND else 0)
      + (if original == v then ResetBonus(original, f) else 0)
  }

  function Status(original: Word, current: Word, v: Word, f: Forks): StorageStatus {
    if current == v then Unchanged
    else if !LegacyMetering(f) && original != current then ModifiedAgain
    else if current == 0 then Added
    else if v == 0 then Deleted
    else Modified
  }

  function WithRefund(s: TxnState, refund: uint64): TxnState {
    s.(current := s.current.(refund := refund))
  }

  function SetStorage(s: TxnState, a: Address, k: Key, v: Word, f: Forks): TxnState {
    var original, current := CommittedState(s, a, k), State(s, a, k);
    if current == v then s else
      WithRefund(Step(s, SetState(a, k, v)), Wrap(s.current.refund + RefundDelta(original, current, v, f)))
  }
}

/** The refund counter over a whole run of one transaction: the first on a base, or a later
    one of the block. */
module Refund {
  import opened Words
  import opened WorldState
  import opened Sstore

  datatype Event =
    | Store(addr: Address, key: Key, value: Word)
    /** The refund for a self-destructed contract. */
    | Destroy
    | Do(op: Op)

  const DESTROY_REFUND: uint64 := 24000

  /** Everything a transaction does besides writing storage and creating contracts. */
  predicate Plain(op: Op) {
    !(op.CreateAccount? || op.AddSealingReward? || op.SetState? || op.AddRefund? || op.SubRefund? || op.Clean?)
  }

  /** A transaction reverts to its own snapshots, those from `first` on. */
  predicate EventsAllowed(first: nat, n: nat, events: seq<Event>)
    decreases |events|
  {
    events == [] ||
    (var e := events[0];
     && (e.Do? ==> Plain(e.op) && (e.op.Revert? ==> first <= e.op.id < n))
     && EventsAllowed(first, if e.Do? && e.op.Snapshot? then n + 1 else n, events[1..]))
  }

  /** Bonuses paid so far, with the value they had at each snapshot; `first` is the number of
      snapshots older than the transaction, `debt` the number of slots that were cleared when
      it began. */
  datatype Tally = Tally(bonus: nat, marks: seq<nat>, first: nat, debt: nat)

  function Happen(s: TxnState, e: Event, f: Forks): TxnState
    requires e.Do? ==> Allowed(s, e.op)
  {
    match e
    case Store(a, k, v) => SetStorage(s, a, k, v, f)
    case Destroy => Step(s, AddRefund(DESTROY_REFUND))
    case Do(op) => Step(s, op)
  }

  function Count(t: Tally, s: TxnState, e: Event, f: Forks): Tally
    requires e.Do? && e.op.Revert? ==> e.op.id < |t.marks|
  {
    match e
    case Store(a, k, v) =>
      var original, current := CommittedState(s, a, k), State(s, a, k);
      t.(bonus := t.bonus + if current != v && original == v then ResetBonus(original, f) else 0)
    case Destroy => t.(bonus := t.bonus + DESTROY_REFUND)
    case Do(op) =>
      if op.Snapshot? then t.(marks := t.marks + [t.bonus])
      else if op.Revert? then t.(bonus := t.marks[op.id])
      else t
  }

  function RunEvents(s: TxnState, t: Tally, events: seq<Event>, f: Forks): (TxnState, Tally)
    requires |t.marks| == |s.snapshots| && EventsAllowed(t.first, |s.snapshots|, events)
    decreases |events|
  {
    if events == [] then (s, t) else
      RunEvents(Happen(s, events[0], f), Count(t, s, events[0], f), events[1..], f)
  }

  // ---------- The invariant ----------

  function BaseRoot(base: Base, a: Address): Storage {
    if a in base then base[a].root else map[]
  }

  function Loaded(base: Base, objects: Objects, a: Address): Object {
    var o := Lookup(base, objects, a);
    if o.Some? then o.value else FRESH
  }

  /** No account was recreated: every object still stands on its base storage. */
  ghost predicate OnBase(base: Base, objects: Objects) {
    forall a :: a in objects ==> !objects[a].deleted && objects[a].account.root == BaseRoot(base, a)
  }

  /** Slots that hold a value in the base and none now. */
  ghost function Cleared(base: Base, objects: Objects): set<(Address, Key)> {
    set a, k | a in base && k in base[a].root && ReadObject(Loaded(base, objects, a), k) == 0 :: (a, k)
  }

  /** The exact, unwrapped refund: 15000 for every slot cleared since the transaction began,
      less that for every slot filled again, plus the bonuses that were paid and not reverted. */
  ghost function Owed(base: Base, ov: Overlay, debt: nat, bonus: nat): int {
    CLEAR_REFUND * (|Cleared(base, ov.objects)| - debt) + bonus
  }

  /** The counter is what is owed, and `n` events cannot make that large. */
  ghost predicate Sound(base: Base, ov: Overlay, debt: nat, bonus: nat, n: nat) {
    && OnBase(base, ov.objects)
    && ov.refund == Wrap(Owed(base, ov, debt, bonus))
    && Owed(base, ov, debt, bonus) <= DESTROY_REFUND * n
  }

  ghost predicate Inv(s: TxnState, t: Tally, n: nat) {
    && Sound(s.base, s.current, t.debt, t.bonus, n)
    && |t.marks| == |s.snapshots|
    && forall i :: t.first <= i < |s.snapshots| ==> Sound(s.base, s.snapshots[i], t.debt, t.marks[i], n)
  }

  /** A transaction may begin: no account was recreated or deleted, and the counter is zero. */
  ghost predicate Starts(s: TxnState) {
    OnBase(s.base, s.current.objects) && s.current.refund == 0
  }

  /** The books of a transaction that begins. */
  ghost function Opening(s: TxnState): (t: Tally)
    ensures |t.marks| == |s.snapshots| == t.first
  {
    Tally(0, seq(|s.snapshots|, _ => 0), |s.snapshots|, |Cleared(s.base, s.current.objects)|)
  }

  lemma OpeningInv(s: TxnState)
    requires Starts(s)
    ensures Inv(s, Opening(s), 0)
  {
  }

  lemma FirstStarts(base: Base)
    ensures Starts(Begin(base)) && Cleared(base, map[]) == {}
  {
  }

  // ---------- One write ----------

  predicate IsCleared(original: Word, v: Word) {
    original != 0 && v == 0
  }

  lemma ClearedAfterWrite(base: Base, objects: Objects, a: Address, k: Key, v: Word, o: Object)
    requires OnBase(base, objects)
    requires o == Loaded(base, objects, a)
    ensures var original := ReadRoot(BaseRoot(base, a), k);
            var after := Cleared(base, objects[a := o.(writes := o.writes[k := v])]);
            after == if IsCleared(original, v) then Cleared(base, objects) + {(a, k)}
                     else Cleared(base, objects) - {(a, k)}
  {
  }

  function Indicator(b: bool): int {
    if b then 1 else 0
  }

  lemma CountAfterWrite(base: Base, objects: Objects, a: Address, k: Key, v: Word, o: Object)
    requires OnBase(base, objects)
    requires o == Loaded(base, objects, a)
    ensures var original, current := ReadRoot(o.account.root, k), ReadObject(o, k);
            |Cleared(base, objects[a := o.(writes := o.writes[k := v])])| ==
            |Cleared(base, objects)| + Indicator(IsCleared(original, v)) - Indicator(IsCleared(original, current))
  {
    ClearedAfterWrite(base, objects, a, k, v, o);
    var before := Cleared(base, objects);
    assert o.account.root == BaseRoot(base, a);
    assert (a, k) in before <==> IsCleared(ReadRoot(o.account.root, k), ReadObject(o, k));
  }

  lemma OnBaseAfterWrite(base: Base, objects: Objects, a: Address, k: Key, v: Word, o: Object)
    requires OnBase(base, objects)
    requires o == Loaded(base, objects, a)
    ensures OnBase(base, objects[a := o.(writes := o.writes[k := v])])
  {
  }

  lemma DeltaArithmetic(n: int, n': int, bonus: nat, original: Word, current: Word, v: Word, f: Forks)
    requires !LegacyMetering(f) && current != v
    requires n' == n + Indicator(IsCleared(original, v)) - Indicator(IsCleared(original, current))
    ensures CLEAR_REFUND * n' + bonus + (if original == v then ResetBonus(original, f) else 0) ==
            CLEAR_REFUND * n + bonus + RefundDelta(original, current, v, f)
    ensures RefundDelta(original, current, v, f) <= DESTROY_REFUND
  {
  }

  lemma WriteIsSound(s: TxnState, debt: nat, bonus: nat, n: nat, a: Address, k: Key, v: Word, f: Forks)
    requires !LegacyMetering(f)
    requires Sound(s.base, s.current, debt, bonus, n)
    ensures var original, current := CommittedState(s, a, k), State(s, a, k);
            Sound(s.base, SetStorage(s, a, k, v, f).current, debt,
                  bonus + (if current != v && original == v then ResetBonus(original, f) else 0), n + 1)
  {
    hide RefundDelta, Cleared;
    var original, current := CommittedState(s, a, k), State(s, a, k);
    if current != v {
      var o, objects := GetOrFresh(s, a), s.current.objects;
      var objects' := objects[a := o.(writes := o.writes[k := v])];
      CountAfterWrite(s.base, objects, a, k, v, o);
      OnBaseAfterWrite(s.base, objects, a, k, v, o);
      var m, m' := |Cleared(s.base, objects)| - debt, |Cleared(s.base, objects')| - debt;
      DeltaArithmetic(m, m', bonus, original, current, v, f);
      WrapOfWrap(CLEAR_REFUND * m + bonus, RefundDelta(original, current, v, f));
    }
  }

  // ---------- Everything else ----------

  lemma ClearedAfterEdit(base: Base, objects: Objects, a: Address, o: Object, o': Object)
    requires OnBase(base, objects)
    requires o == Loaded(base, objects, a)
    requires !o'.deleted && o'.account.root == o.account.root && o'.writes == o.writes
    ensures OnBase(base, objects[a := o'])
    ensures Cleared(base, objects[a := o']) == Cleared(base, objects)
  {
    assert forall b, k :: ReadObject(Loaded(base, objects[a := o'], b), k) == ReadObject(Loaded(base, objects, b), k);
  }

  lemma PlainIsSound(s: TxnState, debt: nat, bonus: nat, n: nat, op: Op)
    requires Plain(op) && !op.Revert?
    requires Sound(s.base, s.current, debt, bonus, n)
    ensures Sound(s.base, Step(s, op).current, debt, bonus, n + 1)
  {
    if OnAccount(op) && !Skipped(s, op) {
      var o := GetOrFresh(s, op.addr);
      ClearedAfterEdit(s.base, s.current.objects, op.addr, o, Edit(o, op));
    }
  }

  lemma DestroyIsSound(s: TxnState, debt: nat, bonus: nat, n: nat)
    requires Sound(s.base, s.current, debt, bonus, n)
    ensures Sound(s.base, Step(s, AddRefund(DESTROY_REFUND)).current, debt, bonus + DESTROY_REFUND, n + 1)
  {
    WrapOfWrap(Owed(s.base, s.current, debt, bonus), DESTROY_REFUND);
  }

  /** What happens to the running overlay does not disturb the snapshots. */
  lemma SnapshotsStaySound(s: TxnState, t: Tally, n: nat, s': TxnState, t': Tally)
    requires Inv(s, t, n)
    requires s'.base == s.base && s'.snapshots == s.snapshots
    requires t'.marks == t.marks && t'.first == t.first && t'.debt == t.debt
    requires Sound(s.base, s'.current, t.debt, t'.bonus, n + 1)
    ensures Inv(s', t', n + 1)
  {
  }

  lemma SnapshotKeepsInv(s: TxnState, t: Tally, n: nat)
    requires Inv(s, t, n)
    ensures Inv(Step(s, Snapshot), t.(marks := t.marks + [t.bonus]), n + 1)
  {
  }

  lemma RevertKeepsInv(s: TxnState, t: Tally, n: nat, id: nat)
    requires Inv(s, t, n) && t.first <= id < |s.snapshots|
    ensures Inv(Step(s, Revert(id)), t.(bonus := t.marks[id]), n + 1)
  {
    SnapshotsStaySound(s, t, n, Step(s, Revert(id)), t.(bonus := t.marks[id]));
  }

  lemma StoreKeepsInv(s: TxnState, t: Tally, n: nat, a: Address, k: Key, v: Word, f: Forks)
    requires !LegacyMetering(f)
    requires Inv(s, t, n)
    ensures Inv(SetStorage(s, a, k, v, f), Count(t, s, Store(a, k, v), f), n + 1)
  {
    hide Sound;
    WriteIsSound(s, t.debt, t.bonus, n, a, k, v, f);
    SnapshotsStaySound(s, t, n, SetStorage(s, a, k, v, f), Count(t, s, Store(a, k, v), f));
  }

  lemma PlainKeepsInv(s: TxnState, t: Tally, n: nat, op: Op)
    requires Plain(op) && !op.Revert? && !op.Snapshot?
    requires Inv(s, t, n)
    ensures Inv(Step(s, op), t, n + 1)
  {
    hide Sound;
    PlainIsSound(s, t.debt, t.bonus, n, op);
    SnapshotsStaySound(s, t, n, Step(s, op), t);
  }

  lemma DestroyKeepsInv(s: TxnState, t: Tally, n: nat)
    requires Inv(s, t, n)
    ensures Inv(Step(s, AddRefund(DESTROY_REFUND)), t.(bonus := t.bonus + DESTROY_REFUND), n + 1)
  {
    DestroyIsSound(s, t.debt, t.bonus, n);
    SnapshotsStaySound(s, t, n, Step(s, AddRefund(DESTROY_REFUND)), t.(bonus := t.bonus + DESTROY_REFUND));
  }

  lemma HappenKeepsInv(s: TxnState, t: Tally, n: nat, e: Event, f: Forks)
    requires !LegacyMetering(f)
    requires Inv(s, t, n)
    requires e.Do? ==> Plain(e.op) && Allowed(s, e.op) && (e.op.Revert? ==> t.first <= e.op.id)
    ensures Inv(Happen(s, e, f), Count(t, s, e, f), n + 1)
  {
    match e
    case Store(a, k, v) => StoreKeepsInv(s, t, n, a, k, v, f);
    case Destroy => DestroyKeepsInv(s, t, n);
    case Do(op) =>
      if op.Snapshot? {
        SnapshotKeepsInv(s, t, n);
      } else if op.Revert? {
        RevertKeepsInv(s, t, n, op.id);
      } else {
        PlainKeepsInv(s, t, n, op);
      }
  }

  lemma {:induction false} RunKeepsInv(s: TxnState, t: Tally, n: nat, events: seq<Event>, f: Forks)
    requires !LegacyMetering(f)
    requires Inv(s, t, n) && EventsAllowed(t.first, |s.snapshots|, events)
    ensures var (s', t') := RunEvents(s, t, events, f);
            Inv(s', t', n + |events|) && s'.base == s.base && t'.debt == t.debt
    decreases |events|
  {
    hide Sound, State, CommittedState;
    if events != [] {
      HappenKeepsInv(s, t, n, events[0], f);
      RunKeepsInv(Happen(s, events[0], f), Count(t, s, events[0], f), n + 1, events[1..], f);
    }
  }

  // ---------- The theorems ----------

  ghost function Ends(s: TxnState, events: seq<Event>, f: Forks): (TxnState, Tally)
    requires EventsAllowed(|s.snapshots|, |s.snapshots|, events)
  {
    RunEvents(s, Opening(s), events, f)
  }

  /** In every run of a transaction, with storage writes, transfers, self-destructs, snapshots
      and reverts in any order and no contract creation, the counter is what is owed; and it is
      exact, without any wrapping, for every run of fewer than 2^64 / 24000 events that does
      not end owing less than nothing. */
  lemma RefundIsOwed(s: TxnState, events: seq<Event>, f: Forks)
    requires !LegacyMetering(f) && Starts(s) && EventsAllowed(|s.snapshots|, |s.snapshots|, events)
    ensures var (r, t) := Ends(s, events, f);
            var owed := Owed(s.base, r.current, |Cleared(s.base, s.current.objects)|, t.bonus);
            && r.base == s.base && OnBase(s.base, r.current.objects)
            && r.current.refund == Wrap(owed)
            && (0 <= owed && DESTROY_REFUND * |events| < TWO_64 ==> r.current.refund == owed)
  {
    hide RunEvents, EventsAllowed;
    OpeningInv(s);
    RunKeepsInv(s, Opening(s), 0, events, f);
  }

  /** What a run ends owing. */
  ghost function OwedAfter(s: TxnState, events: seq<Event>, f: Forks): int
    requires EventsAllowed(|s.snapshots|, |s.snapshots|, events)
  {
    var (r, t) := Ends(s, events, f);
    Owed(s.base, r.current, |Cleared(s.base, s.current.objects)|, t.bonus)
  }

  /** No run of a transaction from `s` takes the counter below zero. */
  ghost predicate NeverBelowZero(s: TxnState, f: Forks) {
    forall events :: EventsAllowed(|s.snapshots|, |s.snapshots|, events) ==> OwedAfter(s, events, f) >= 0
  }

  /** The first refill of a slot that was cleared before the transaction began. */
  lemma RefillOwes(s: TxnState, a: Address, k: Key, v: Word, f: Forks)
    requires !LegacyMetering(f) && Starts(s) && (a, k) in Cleared(s.base, s.current.objects)
    requires v != 0 && v != CommittedState(s, a, k)
    ensures EventsAllowed(|s.snapshots|, |s.snapshots|, [Store(a, k, v)])
    ensures OwedAfter(s, [Store(a, k, v)], f) == 0 - CLEAR_REFUND
    ensures SetStorage(s, a, k, v, f).current.refund == TWO_64 - CLEAR_REFUND
  {
    hide RunEvents, EventsAllowed, Cleared, SetStorage, Count, Owed, OnBase, CommittedState;
    OneStore(s, a, k, v, f);
    RefillStore(s, a, k, v, f);
    RefundIsOwed(s, [Store(a, k, v)], f);
    assert Wrap(0 - CLEAR_REFUND) == TWO_64 - CLEAR_REFUND;
  }

  lemma RefillStore(s: TxnState, a: Address, k: Key, v: Word, f: Forks)
    requires !LegacyMetering(f) && Starts(s) && (a, k) in Cleared(s.base, s.current.objects)
    requires v != 0 && v != CommittedState(s, a, k)
    ensures Count(Opening(s), s, Store(a, k, v), f).bonus == 0
    ensures Owed(s.base, SetStorage(s, a, k, v, f).current, |Cleared(s.base, s.current.objects)|, 0) == 0 - CLEAR_REFUND
  {
    ClearedSlot(s, a, k);
    RefillCount(s, a, k, v);
    hide Cleared, State, CommittedState, Step;
  }

  lemma OneStore(s: TxnState, a: Address, k: Key, v: Word, f: Forks)
    ensures EventsAllowed(|s.snapshots|, |s.snapshots|, [Store(a, k, v)])
    ensures Ends(s, [Store(a, k, v)], f) == (SetStorage(s, a, k, v, f), Count(Opening(s), s, Store(a, k, v), f))
  {
    hide Opening, Cleared, State, CommittedState, RefundDelta;
    var e := Store(a, k, v);
    var s', t' := Happen(s, e, f), Count(Opening(s), s, e, f);
    assert [e][1..] == [];
    assert RunEvents(s', t', [], f) == (s', t');
  }

  lemma RefillCount(s: TxnState, a: Address, k: Key, v: Word)
    requires OnBase(s.base, s.current.objects) && (a, k) in Cleared(s.base, s.current.objects) && v != 0
    ensures |Cleared(s.base, Step(s, SetState(a, k, v)).current.objects)| == |Cleared(s.base, s.current.objects)| - 1
  {
    hide Cleared;
    var o := GetOrFresh(s, a);
    ClearedSlot(s, a, k);
    CountAfterWrite(s.base, s.current.objects, a, k, v, o);
  }

  lemma ClearedSlot(s: TxnState, a: Address, k: Key)
    requires OnBase(s.base, s.current.objects) && (a, k) in Cleared(s.base, s.current.objects)
    ensures CommittedState(s, a, k) != 0 && State(s, a, k) == 0
  {
    assert GetOrFresh(s, a).account.root == BaseRoot(s.base, a);
  }

  /** A transaction that begins with no slot cleared never takes the counter below zero; one
      that begins with a slot cleared, as a later transaction of a block may, can. */
  lemma NeverBelowZeroIff(s: TxnState, f: Forks)
    requires !LegacyMetering(f) && Starts(s)
    ensures NeverBelowZero(s, f) <==> Cleared(s.base, s.current.objects) == {}
  {
    hide Cleared, EventsAllowed, RunEvents, Starts;
    var cleared := Cleared(s.base, s.current.objects);
    if cleared == {} {
      forall events | EventsAllowed(|s.snapshots|, |s.snapshots|, events) ensures OwedAfter(s, events, f) >= 0 {
        var (r, t) := Ends(s, events, f);
        assert |cleared| == 0;
        NoDebtNoLoss(s.base, r.current, t.bonus);
      }
    } else {
      var x :| x in cleared;
      var v := CommittedState(s, x.0, x.1) + 1;
      RefillOwes(s, x.0, x.1, v, f);
      assert OwedAfter(s, [Store(x.0, x.1, v)], f) < 0;
    }
  }

  lemma NoDebtNoLoss(base: Base, ov: Overlay, bonus: nat)
    ensures Owed(base, ov, 0, bonus) >= 0
  {
  }

  /** Giving the refund back for a slot that is filled again never takes the counter below
      zero: the slot is one of those the refund is owed for. */
  lemma SubRefundNeverWraps(s: TxnState, events: seq<Event>, f: Forks, a: Address, k: Key, v: Word)
    requires !LegacyMetering(f) && Starts(s) && EventsAllowed(|s.snapshots|, |s.snapshots|, events)
    requires Cleared(s.base, s.current.objects) == {} && DESTROY_REFUND * |events| < TWO_64
    ensures var r := Ends(s, events, f).0;
            && (IsCleared(CommittedState(r, a, k), State(r, a, k)) ==> r.current.refund >= CLEAR_REFUND)
            && r.current.refund + RefundDelta(CommittedState(r, a, k), State(r, a, k), v, f) >= 0
  {
    hide RunEvents, EventsAllowed, State, CommittedState, Cleared, Starts;
    RefundIsOwed(s, events, f);
    var (r, t) := Ends(s, events, f);
    if IsCleared(CommittedState(r, a, k), State(r, a, k)) {
      ClearedSlotCounted(r, a, k);
    }
  }

  lemma ClearedSlotCounted(s: TxnState, a: Address, k: Key)
    requires OnBase(s.base, s.current.objects)
    requires IsCleared(CommittedState(s, a, k), State(s, a, k))
    ensures |Cleared(s.base, s.current.objects)| >= 1
  {
    assert (a, k) in Cleared(s.base, s.current.objects);
  }

  /** A block whose first transaction clears a slot: the second may begin, and filling the slot
      wraps its counter. */
  lemma LaterTransactionWraps(f: Forks)
    requires !LegacyMetering(f)
    ensures var base: Base := map[1 := Account(1, 0, map[7 := 5], [])];
            var next := Step(SetStorage(Begin(base), 1, 7, 0, f), Clean(true));
            && Starts(next) && !NeverBelowZero(next, f)
            && SetStorage(next, 1, 7, 6, f).current.refund == TWO_64 - CLEAR_REFUND
  {
    var base: Base := map[1 := Account(1, 0, map[7 := 5], [])];
    ClearedByFirst(base, f);
    var next := Step(SetStorage(Begin(base), 1, 7, 0, f), Clean(true));
    hide SetStorage, Step, NeverBelowZero;
    SecondStarts(next);
    NeverBelowZeroIff(next, f);
    RefillOwes(next, 1, 7, 6, f);
  }

  lemma SecondStarts(s: TxnState)
    requires s.base == map[1 := Account(1, 0, map[7 := 5], [])] && s.current.refund == 0
    requires s.current.objects == map[1 := Object(s.base[1], false, false, false, map[7 := 0])]
    ensures Starts(s) && (1, 7) in Cleared(s.base, s.current.objects) && CommittedState(s, 1, 7) == 5
  {
  }

  lemma ClearedByFirst(base: Base, f: Forks)
    requires !LegacyMetering(f) && base == map[1 := Account(1, 0, map[7 := 5], [])]
    ensures var next := Step(SetStorage(Begin(base), 1, 7, 0, f), Clean(true));
            && next.base == base && next.current.refund == 0
            && next.current.objects == map[1 := Object(base[1], false, false, false, map[7 := 0])]
  {
    var s := SetStorage(Begin(base), 1, 7, 0, f);
    assert s.current.objects == map[1 := Object(base[1], false, false, false, map[7 := 0])];
  }
}
