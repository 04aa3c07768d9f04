/** What storage writes cost once their refunds are taken off: net metering as EIP-1283 and
    EIP-2200 mean it (state/txn.go, state/runtime/evm/instructions.go). */
module Metering {
  import opened Words
  import opened WorldState
  import opened Sstore
  import opened Payments

  type Slot = (Address, Key)

  datatype Write = Write(slot: Slot, value: Word)

  /** The price of reading a slot. */
  function SloadPrice(f: Forks): nat {
    if f.istanbul then 800 else 200
  }

  /** What the instruction charges for a write that had this status. */
  function Charge(status: StorageStatus, f: Forks): nat {
    match status
    case Unchanged => if f.istanbul then 800 else if LegacyMetering(f) then 5000 else 200
    case Modified => 5000
    case ModifiedAgain => if f.istanbul then 800 else if LegacyMetering(f) then 5000 else 200
    case Added => 20000
    case Deleted => 5000
  }

  function Committed(s: TxnState, slot: Slot): Word {
    CommittedState(s, slot.0, slot.1)
  }

  function Current(s: TxnState, slot: Slot): Word {
    State(s, slot.0, slot.1)
  }

  function Store(s: TxnState, w: Write, f: Forks): TxnState {
    SetStorage(s, w.slot.0, w.slot.1, w.value, f)
  }

  function ChargeOf(s: TxnState, w: Write, f: Forks): nat {
    Charge(Status(Committed(s, w.slot), Current(s, w.slot), w.value, f), f)
  }

  function RunWrites(s: TxnState, ws: seq<Write>, f: Forks): TxnState
    decreases |ws|
  {
    if ws == [] then s else RunWrites(Store(s, ws[0], f), ws[1..], f)
  }

  function Charges(s: TxnState, ws: seq<Write>, f: Forks): nat
    decreases |ws|
  {
    if ws == [] then 0 else ChargeOf(s, ws[0], f) + Charges(Store(s, ws[0], f), ws[1..], f)
  }

  // ---------- One write ----------

  /** What a slot that had `original` before the transaction and now holds `v` has cost in
      all, beyond one read price for each write of it: as if it had been written once. */
  function Premium(original: Word, v: Word, f: Forks): int {
    if v == original then 0
    else if original == 0 then 20000 - SloadPrice(f)
    else if v == 0 then 5000 - 15000 - SloadPrice(f)
    else 5000 - SloadPrice(f)
  }

  lemma OneWrite(original: Word, current: Word, v: Word, f: Forks)
    requires !LegacyMetering(f)
    ensures Charge(Status(original, current, v, f), f) - RefundDelta(original, current, v, f) ==
            SloadPrice(f) + Premium(original, v, f) - Premium(original, current, f)
  {
  }

  lemma RefundAfter(s: TxnState, w: Write, f: Forks)
    ensures Store(s, w, f).current.refund ==
            Wrap(s.current.refund + RefundDelta(Committed(s, w.slot), Current(s, w.slot), w.value, f))
  {
  }

  lemma StoreNets(s: TxnState, w: Write, f: Forks)
    requires !LegacyMetering(f)
    ensures var original := Committed(s, w.slot);
            Store(s, w, f).current.refund ==
            Wrap(s.current.refund + ChargeOf(s, w, f) - SloadPrice(f)
                 - Premium(original, w.value, f) + Premium(original, Current(s, w.slot), f))
  {
    hide Store, Committed, Current, Status, RefundDelta, Charge, Premium, Wrap;
    RefundAfter(s, w, f);
    OneWrite(Committed(s, w.slot), Current(s, w.slot), w.value, f);
  }

  // ---------- Any writes of a transaction ----------

  /** The premiums of a list of slots. */
  function Premiums(s: TxnState, slots: seq<Slot>, f: Forks): int {
    if slots == [] then 0 else
      Premium(Committed(s, slots[0]), Current(s, slots[0]), f) + Premiums(s, slots[1..], f)
  }

  predicate Distinct(slots: seq<Slot>) {
    forall i, j :: 0 <= i < j < |slots| ==> slots[i] != slots[j]
  }

  lemma StoreReads(s: TxnState, w: Write, slot: Slot, f: Forks)
    ensures Current(Store(s, w, f), slot) == if slot == w.slot then w.value else Current(s, slot)
    ensures Committed(Store(s, w, f), slot) == Committed(s, slot)
  {
    StoreWrites(s, w.slot.0, w.slot.1, w.value, f, slot.0, slot.1);
  }

  lemma {:induction false} PremiumsAfter(s: TxnState, w: Write, slots: seq<Slot>, f: Forks)
    requires Distinct(slots)
    ensures Premiums(Store(s, w, f), slots, f) == Premiums(s, slots, f) +
            if w.slot in slots
            then Premium(Committed(s, w.slot), w.value, f) - Premium(Committed(s, w.slot), Current(s, w.slot), f)
            else 0
  {
    hide Store, Committed, Current, Premium;
    if slots != [] {
      StoreReads(s, w, slots[0], f);
      PremiumsAfter(s, w, slots[1..], f);
      assert w.slot in slots <==> w.slot == slots[0] || w.slot in slots[1..];
    }
  }

  /** Any run of writes, to any slots in any order: the instructions' charges less what the
      refund counter gained come to one read price for each write and the change of the
      slots' premiums. What lies between is forgotten. */
  lemma {:induction false} NetMetering(s: TxnState, ws: seq<Write>, slots: seq<Slot>, f: Forks)
    requires !LegacyMetering(f) && Distinct(slots)
    requires forall i :: 0 <= i < |ws| ==> ws[i].slot in slots
    ensures var t := RunWrites(s, ws, f);
            t.current.refund ==
            Wrap(s.current.refund + Charges(s, ws, f)
                 - (|ws| * SloadPrice(f) + Premiums(t, slots, f) - Premiums(s, slots, f)))
    decreases |ws|
  {
    hide Store, ChargeOf, Premiums, SloadPrice, Distinct, Premium, Committed, Current;
    if ws == [] {
      WrapIs(s.current.refund);
    } else {
      var u := Store(s, ws[0], f);
      StoreNets(s, ws[0], f);
      PremiumsAfter(s, ws[0], slots, f);
      NetMetering(u, ws[1..], slots, f);
      var price := SloadPrice(f);
      assert |ws| * price == price + |ws[1..]| * price;
      WrapOfWrap(s.current.refund + ChargeOf(s, ws[0], f) - price - Premiums(u, slots, f) + Premiums(s, slots, f),
                 Charges(u, ws[1..], f)
                 - (|ws[1..]| * price + Premiums(RunWrites(u, ws[1..], f), slots, f) - Premiums(u, slots, f)));
    }
  }

  lemma WrapIs(x: uint64)
    ensures Wrap(x) == x
  {
  }

  /** None of the slots has been written yet in the transaction. */
  predicate Unwritten(s: TxnState, slots: seq<Slot>) {
    forall i :: 0 <= i < |slots| ==> Current(s, slots[i]) == Committed(s, slots[i])
  }

  lemma {:induction false} UnwrittenFree(s: TxnState, slots: seq<Slot>, f: Forks)
    requires Unwritten(s, slots)
    ensures Premiums(s, slots, f) == 0
  {
    hide Current, Committed;
    if slots != [] {
      UnwrittenFree(s, slots[1..], f);
    }
  }

  /** The writes of a whole transaction cost what writing each slot's last value once would,
      and a read price for every write besides. */
  lemma TransactionNets(s: TxnState, ws: seq<Write>, slots: seq<Slot>, f: Forks)
    requires !LegacyMetering(f) && Distinct(slots) && Unwritten(s, slots)
    requires forall i :: 0 <= i < |ws| ==> ws[i].slot in slots
    ensures var t := RunWrites(s, ws, f);
            t.current.refund ==
            Wrap(s.current.refund + Charges(s, ws, f) - (|ws| * SloadPrice(f) + Premiums(t, slots, f)))
  {
    NetMetering(s, ws, slots, f);
    UnwrittenFree(s, slots, f);
    hide RunWrites, Charges, Premiums, SloadPrice, Distinct, Unwritten;
  }

  lemma {:induction false} LastValue(s: TxnState, ws: seq<Write>, slot: Slot, f: Forks)
    requires ws != [] && forall i :: 0 <= i < |ws| ==> ws[i].slot == slot
    ensures var t := RunWrites(s, ws, f);
            Current(t, slot) == ws[|ws| - 1].value && Committed(t, slot) == Committed(s, slot)
    decreases |ws|
  {
    hide Store, Current, Committed;
    StoreReads(s, ws[0], slot, f);
    if |ws| > 1 {
      LastValue(Store(s, ws[0], f), ws[1..], slot, f);
    } else {
      assert ws[1..] == [];
    }
  }

  /** Writes of one slot that end at its original value cost a read price each; ending
      elsewhere they cost a single write of the last value and a read price for each further
      one. */
  lemma {:induction false} OneSlotNets(s: TxnState, ws: seq<Write>, slot: Slot, f: Forks)
    requires !LegacyMetering(f) && Current(s, slot) == Committed(s, slot)
    requires ws != [] && forall i :: 0 <= i < |ws| ==> ws[i].slot == slot
    ensures var t, original, last, price := RunWrites(s, ws, f), Committed(s, slot), ws[|ws| - 1].value, SloadPrice(f);
            var once := if last == original then price else if original == 0 then 20000
                        else if last == 0 then 5000 - 15000 else 5000;
            t.current.refund == Wrap(s.current.refund + Charges(s, ws, f) - (once + (|ws| - 1) * price))
  {
    hide RunWrites, Charges, Current, Committed, SloadPrice, Wrap;
    TransactionNets(s, ws, [slot], f);
    LastValue(s, ws, slot, f);
    var t, price := RunWrites(s, ws, f), SloadPrice(f);
    assert [slot][1..] == [];
    assert Premiums(t, [slot], f) == Premium(Committed(t, slot), Current(t, slot), f);
    assert |ws| * price == price + (|ws| - 1) * price;
  }

  /** A single write from the original value is charged 20000 if it fills an empty slot, 5000
      if it changes or clears a full one, the read price if it changes nothing; a further
      write is charged the read price. */
  lemma ChargeIs(s: TxnState, w: Write, f: Forks)
    requires !LegacyMetering(f)
    ensures var original, current := Committed(s, w.slot), Current(s, w.slot);
            ChargeOf(s, w, f) ==
            if current != original || w.value == current then SloadPrice(f) else if original == 0 then 20000 else 5000
  {
    hide Committed, Current;
  }

  /** Before net metering a write costs 20000 if it fills an empty slot and 5000 otherwise,
      and clearing a full one earns 15000 back, every time. */
  lemma LegacyCosts(s: TxnState, w: Write, f: Forks)
    requires LegacyMetering(f)
    ensures var current := Current(s, w.slot);
            && ChargeOf(s, w, f) == (if current == 0 && w.value != 0 then 20000 else 5000)
            && Store(s, w, f).current.refund ==
               Wrap(s.current.refund + if current != 0 && w.value == 0 then 15000 else 0)
  {
    RefundAfter(s, w, f);
    hide Store, Committed, Current;
  }
}
