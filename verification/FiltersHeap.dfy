/** The filter manager as it runs: filters know their place in the timeout heap, and block
    filters point into a linked list of blocks. */
module FiltersHeap {
  import opened Wrappers
  import opened Filters
  import Heap

  const NO_INDEX_IN_HEAP := -1

  // ---------- The block stream ----------

  class HeadElem {
    const header: BlockId
    var next: HeadElem?

    constructor (header: BlockId)
      ensures this.header == header && next == null
    {
      this.header := header;
      next := null;
    }
  }

  class BlockStream {
    var head: HeadElem
    /** The whole list: the head of the chain at the start, then every block pushed. */
    ghost var elems: seq<HeadElem>

    ghost predicate Valid()
      reads this, elems
    {
      && elems != [] && head == elems[|elems| - 1] && head.next == null
      && (forall i :: 0 <= i < |elems| - 1 ==> elems[i].next == elems[i + 1])
    }

    ghost function Headers(): (r: seq<BlockId>)
      reads this
      ensures elems != [] ==> |r| == |elems| - 1 && forall i :: 0 <= i < |r| ==> r[i] == elems[i + 1].header
    {
      var es := elems;
      if es == [] then [] else seq(|es| - 1, i requires 0 <= i < |es| - 1 => es[i + 1].header)
    }

    constructor (header: BlockId)
      ensures Valid() && Headers() == [] && fresh(elems)
    {
      var first := new HeadElem(header);
      head, elems := first, [first];
    }

    lemma EndsAt(i: nat)
      requires Valid() && i < |elems|
      ensures elems[i].next == null <==> i == |elems| - 1
    {
      assert i < |elems| - 1 ==> elems[i].next == elems[i + 1];
    }

    method Push(header: BlockId)
      requires Valid()
      modifies this, head
      ensures Valid() && Headers() == old(Headers()) + [header]
      ensures old(elems) <= elems && fresh(head) && elems == old(elems) + [head]
    {
      var newHead := new HeadElem(header);
      forall i | 0 <= i < |elems| - 1 ensures elems[i] != head {
        assert elems[i].next == elems[i + 1];
      }
      head.next := newHead;
      head, elems := newHead, elems + [newHead];
    }
  }

  /** Follows the list from the cursor to its end. */
  method GetUpdates(from: HeadElem, stream: BlockStream, ghost cursor: nat) returns (res: seq<BlockId>, cur: HeadElem)
    requires stream.Valid() && cursor < |stream.elems| && stream.elems[cursor] == from
    ensures res == stream.Headers()[cursor..] && cur == stream.head
  {
    res, cur := [], from;
    ghost var at := cursor;
    assert stream.Headers()[cursor..cursor] == [];
    stream.EndsAt(at);
    while cur.next != null
      invariant cursor <= at < |stream.elems| && stream.elems[at] == cur
      invariant cur.next == null <==> at == |stream.elems| - 1
      invariant res == stream.Headers()[cursor..at]
      decreases |stream.elems| - at
    {
      cur := cur.next;
      res := res + [cur.header];
      at := at + 1;
      stream.EndsAt(at);
    }
    ghost var headers := stream.Headers();
    assert headers[cursor..at] == headers[cursor..];
  }

  // ---------- The timeout heap ----------

  class FilterBase {
    const id: Id
    const ws: bool
    const blocks: bool
    var heapIndex: int
    var expiresAt: Time
    /** Where a block filter stands in the stream. */
    var block: HeadElem
    ghost var cursor: nat

    constructor (id: Id, ws: bool, blocks: bool, block: HeadElem, ghost cursor: nat)
      ensures this.id == id && this.ws == ws && this.blocks == blocks && this.block == block && this.cursor == cursor
      ensures heapIndex == NO_INDEX_IN_HEAP && expiresAt == 0
    {
      this.id, this.ws, this.blocks, this.block, this.cursor := id, ws, blocks, block, cursor;
      heapIndex, expiresAt := NO_INDEX_IN_HEAP, 0;
    }

    ghost function Entry(): Timed
      reads this
    {
      Timed(id, expiresAt)
    }

    ghost function Value(): Filter
      reads this
    {
      Filter(ws, expiresAt, if blocks then Some(cursor) else None)
    }
  }

  class TimeHeap {
    var items: seq<FilterBase>
    /** The filters in the heap. */
    ghost var members: set<FilterBase>

    /** Every filter in the heap knows its position. */
    ghost predicate Valid()
      reads this, members
    {
      && (forall i :: 0 <= i < |items| ==> items[i] in members && items[i].heapIndex == i)
      && (forall f :: f in members ==> 0 <= f.heapIndex < |items| && items[f.heapIndex] == f)
    }

    ghost function View(): (r: seq<Timed>)
      reads this, items
      ensures |r| == |items| && forall i :: 0 <= i < |r| ==> r[i] == items[i].Entry()
    {
      var fs := items;
      seq(|fs|, i requires 0 <= i < |fs| reads fs => fs[i].Entry())
    }

    constructor ()
      ensures Valid() && items == [] && members == {}
    {
      items, members := [], {};
    }

    method Less(i: nat, j: nat) returns (r: bool)
      requires i < |items| && j < |items|
      ensures r == Earlier(View()[i], View()[j])
    {
      r := items[i].expiresAt < items[j].expiresAt;
    }

    method Swap(i: nat, j: nat)
      requires Valid() && i < |items| && j < |items|
      modifies this`items, members`heapIndex
      ensures Valid() && |items| == |old(items)| && items == Heap.Swap(old(items), i, j) && items[j] == old(items)[i]
      ensures View() == Heap.Swap(old(View()), i, j)
    {
      items := items[i := items[j]][j := items[i]];
      items[i].heapIndex := i;
      items[j].heapIndex := j;
    }

    method Up(j0: nat)
      requires Valid() && j0 < |items|
      modifies this`items, members`heapIndex
      ensures Valid() && View() == Heap.UpFrom(Earlier, old(View()), j0)
      ensures |items| == |old(items)| && items[j0 + 1..] == old(items)[j0 + 1..]
    {
      hide Valid, Heap.Swap, Heap.UpFrom, Earlier;
      ghost var goal := Heap.UpFrom(Earlier, View(), j0);
      var j := j0;
      while true
        invariant Valid() && 0 <= j <= j0 < |items| == |old(items)|
        invariant Heap.UpFrom(Earlier, View(), j) == goal
        invariant items[j0 + 1..] == old(items)[j0 + 1..]
        decreases j
      {
        UpUnfold(View(), j);
        if j == 0 {
          break;
        }
        var i := Heap.Parent(j);
        var less := Less(j, i);
        if !less {
          break;
        }
        SwapWithin(items, j, i, j0 + 1);
        Swap(j, i);
        j := i;
      }
    }

    /** Within the first `n` elements. */
    method Down(i0: nat, n: nat) returns (moved: bool)
      requires Valid() && i0 < n <= |items|
      modifies this`items, members`heapIndex
      ensures Valid() && |items| == |old(items)| && items[n..] == old(items)[n..]
      ensures (View()[..n], moved) ==
              (Heap.DownFrom(Earlier, old(View())[..n], i0).0, Heap.DownFrom(Earlier, old(View())[..n], i0).1 > i0)
    {
      hide Valid, Heap.Swap, Heap.DownFrom, Heap.FirstChild, Earlier;
      ghost var q := View()[..n];
      ghost var goal := Heap.DownFrom(Earlier, q, i0);
      var i := i0;
      while true
        invariant Valid() && i0 <= i < n <= |items| == |old(items)|
        invariant View()[..n] == q && Heap.DownFrom(Earlier, q, i) == goal
        invariant items[n..] == old(items)[n..]
        decreases n - i
      {
        DownUnfold(q, i);
        if 2 * i + 1 >= n {
          break;
        }
        var j, less := DownOnce(i, n);
        if !less {
          break;
        }
        q := Heap.Swap(q, i, j);
        i := j;
      }
      moved := i > i0;
    }

    /** Swaps with the first child if that comes before. */
    method DownOnce(i: nat, n: nat) returns (j: nat, less: bool)
      requires Valid() && 2 * i + 1 < n <= |items|
      modifies this`items, members`heapIndex
      ensures Valid() && |items| == |old(items)| && items[n..] == old(items)[n..]
      ensures var q := old(View())[..n];
              && j == Heap.FirstChild(Earlier, q, i) && i < j < n && less == Earlier(q[j], q[i])
              && View()[..n] == if less then Heap.Swap(q, i, j) else q
    {
      hide Valid, Heap.Swap, Heap.FirstChild;
      ghost var q := View()[..n];
      j := FirstChild(i, n);
      less := Less(j, i);
      assert q[j] == View()[j] && q[i] == View()[i];
      if less {
        SwapWithin(View(), i, j, n);
        SwapWithin(items, i, j, n);
        Swap(i, j);
      }
    }

    method FirstChild(i: nat, n: nat) returns (j: nat)
      requires 2 * i + 1 < n <= |items|
      ensures j == Heap.FirstChild(Earlier, View()[..n], i) && i < j < n
    {
      j := 2 * i + 1;
      if j + 1 < n {
        var right := Less(j + 1, j);
        if right {
          j := j + 1;
        }
      }
    }

    /** container/heap's Push. */
    method AddFilter(f: FilterBase)
      requires Valid() && f !in members
      modifies this, f`heapIndex, members`heapIndex
      ensures Valid() && View() == Heap.Pushed(Earlier, old(View()), f.Entry()) && members == old(members) + {f}
    {
      hide Heap.UpFrom;
      var n := |items|;
      f.heapIndex := n;
      items, members := items + [f], members + {f};
      assert View() == old(View()) + [f.Entry()];
      Up(n);
    }

    /** container/heap's Remove, at the position the filter remembers. */
    method RemoveFilter(f: FilterBase) returns (removed: bool)
      requires Valid() && (f.heapIndex == NO_INDEX_IN_HEAP || f in members)
      modifies this, members`heapIndex
      ensures Valid() && removed == (old(f.heapIndex) != NO_INDEX_IN_HEAP)
      ensures !removed ==> items == old(items) && View() == old(View()) && members == old(members)
      ensures removed ==> f in old(members) && f.heapIndex == NO_INDEX_IN_HEAP && members == old(members) - {f}
      ensures removed ==> 0 <= old(f.heapIndex) < |old(View())| &&
                          View() == Heap.Removed(Earlier, old(View()), old(f.heapIndex))
    {
      if f.heapIndex == NO_INDEX_IN_HEAP {
        return false;
      }
      KnowsPlace(f);
      hide Valid;
      RemoveAt(f.heapIndex);
      removed := true;
    }

    lemma KnowsPlace(f: FilterBase)
      requires Valid() && f in members
      ensures 0 <= f.heapIndex < |items| && items[f.heapIndex] == f
    {
    }

    method RemoveAt(i: nat)
      requires Valid() && i < |items|
      modifies this, members`heapIndex
      ensures Valid() && View() == Heap.Removed(Earlier, old(View()), i)
      ensures old(items)[i] in old(members) && members == old(members) - {old(items)[i]}
      ensures old(items)[i].heapIndex == NO_INDEX_IN_HEAP
    {
      hide Heap.UpFrom, Heap.DownFrom, Earlier, Valid, Heap.Removed, Heap.Swap;
      var n := |items| - 1;
      Belongs(i);
      if i != n {
        MoveToEnd(i, n);
      } else {
        RemoveLast(View());
      }
      var popped := PopLast();
    }

    lemma Belongs(i: nat)
      requires Valid() && i < |items|
      ensures items[i] in members
    {
    }

    /** Swaps the element with the last one and repairs the heap before that. */
    method MoveToEnd(i: nat, n: nat)
      requires Valid() && i < n == |items| - 1
      modifies this`items, members`heapIndex
      ensures Valid() && |items| == |old(items)| && items[n] == old(items)[i]
      ensures View()[..n] == Heap.Removed(Earlier, old(View()), i)
    {
      hide Valid, Heap.UpFrom, Heap.DownFrom, Heap.Swap, Heap.Removed, Earlier;
      RemovedSteps(View(), i);
      Swap(i, n);
      var moved := Down(i, n);
      assert items[n] == items[n..][0];
      if !moved {
        UpWithin(Earlier, View(), i, n);
        Up(i);
      }
    }

    /** Takes the last element off the slice. */
    method PopLast() returns (f: FilterBase)
      requires Valid() && items != []
      modifies this, members`heapIndex
      ensures Valid() && f == old(items)[|old(items)| - 1] && members == old(members) - {f}
      ensures f.heapIndex == NO_INDEX_IN_HEAP && View() == old(View())[..|old(items)| - 1]
    {
      var n := |items|;
      f := items[n - 1];
      f.heapIndex := NO_INDEX_IN_HEAP;
      items, members := items[..n - 1], members - {f};
    }
  }

  lemma RemoveLast(q: seq<Timed>)
    requires q != []
    ensures Heap.Removed(Earlier, q, |q| - 1) == q[..|q| - 1]
  {
  }

  lemma RemovedSteps(q: seq<Timed>, i: nat)
    requires i < |q| - 1
    ensures var (r, j) := Heap.DownFrom(Earlier, Heap.Swap(q, i, |q| - 1)[..|q| - 1], i);
            Heap.Removed(Earlier, q, i) == if j > i then r else Heap.UpFrom(Earlier, r, i)
  {
  }

  lemma UpUnfold(q: seq<Timed>, j: nat)
    requires j < |q|
    ensures Heap.UpFrom(Earlier, q, j) ==
            if j == 0 || !Earlier(q[j], q[Heap.Parent(j)]) then q
            else Heap.UpFrom(Earlier, Heap.Swap(q, j, Heap.Parent(j)), Heap.Parent(j))
  {
  }

  lemma DownUnfold(q: seq<Timed>, i: nat)
    ensures Heap.DownFrom(Earlier, q, i) ==
            if 2 * i + 1 >= |q| || !Earlier(q[Heap.FirstChild(Earlier, q, i)], q[i]) then (q, i as int)
            else var j := Heap.FirstChild(Earlier, q, i); Heap.DownFrom(Earlier, Heap.Swap(q, i, j), j)
  {
  }

  lemma SwapWithin<T>(q: seq<T>, i: nat, j: nat, n: nat)
    requires i < n && j < n <= |q|
    ensures Heap.Swap(q, i, j)[..n] == Heap.Swap(q[..n], i, j) && Heap.Swap(q, i, j)[n..] == q[n..]
  {
  }

  /** Moving up from below `n` leaves everything from `n` on alone. */
  lemma {:induction false} UpWithin<T>(less: (T, T) -> bool, q: seq<T>, j: nat, n: nat)
    requires j < n <= |q|
    ensures Heap.UpFrom(less, q, j)[..n] == Heap.UpFrom(less, q[..n], j)
    ensures Heap.UpFrom(less, q, j)[n..] == q[n..]
    decreases j
  {
    if j > 0 && less(q[j], q[Heap.Parent(j)]) {
      var p := Heap.Parent(j);
      UpWithin(less, Heap.Swap(q, j, p), p, n);
      assert Heap.Swap(q, j, p)[..n] == Heap.Swap(q[..n], j, p);
    }
  }

  // ---------- The manager ----------

  class FilterManager {
    const timeout: nat
    const timeouts: TimeHeap
    const stream: BlockStream
    var filters: map<Id, FilterBase>

    ghost predicate Valid()
      reads this, timeouts, timeouts.members, stream, stream.elems, filters.Values
    {
      ValidBut({})
    }

    /** The members of the heap are the filters without a web socket, but for the ones that
        are `out` at the moment; cursors are in the list. */
    ghost predicate ValidBut(out: set<Id>)
      reads this, timeouts, timeouts.members, stream, stream.elems, filters.Values
    {
      && timeouts.Valid() && stream.Valid()
      && (forall id :: id in filters ==> Placed(id, out))
      && (forall f :: f in timeouts.members ==> f.id in filters && filters[f.id] == f && !f.ws)
    }

    ghost predicate Placed(id: Id, out: set<Id>)
      requires id in filters
      reads this, timeouts, stream, filters.Values
    {
      var f := filters[id];
      && f.id == id
      && (if f.ws || id in out then f.heapIndex == NO_INDEX_IN_HEAP && f !in timeouts.members else f in timeouts.members)
      && (f.blocks ==> f.cursor < |stream.elems| && stream.elems[f.cursor] == f.block)
    }

    ghost function FilterValues(): map<Id, Filter>
      reads this, filters.Values
    {
      map id | id in filters :: filters[id].Value()
    }

    ghost function Value(): Manager
      reads this, timeouts, timeouts.items, stream, filters.Values
    {
      Manager(FilterValues(), timeouts.View(), stream.Headers())
    }

    constructor (header: BlockId, timeout: nat)
      ensures Valid() && Value() == Manager(map[], [], []) && this.timeout == timeout
      ensures fresh(timeouts) && fresh(stream) && fresh(stream.elems)
    {
      this.timeout := timeout;
      timeouts := new TimeHeap();
      stream := new BlockStream(header);
      filters := map[];
    }

    /** Starts the timeout of a filter that is not in the heap. */
    method AddFilterTimeout(f: FilterBase, now: Time)
      requires f.id in filters && filters[f.id] == f && !f.ws && ValidBut({f.id})
      modifies f`expiresAt, f`heapIndex, timeouts, timeouts.members`heapIndex
      ensures Valid() && Value() == WithTimeout(old(Value()), f.id, now + timeout)
    {
      hide Heap.Pushed, ValidBut;
      SetExpiry(f, now + timeout);
      Enlist(f);
    }

    method Enlist(f: FilterBase)
      requires f.id in filters && filters[f.id] == f && !f.ws && ValidBut({f.id})
      modifies f`heapIndex, timeouts, timeouts.members`heapIndex
      ensures Valid() && Value() == old(Value()).(heap := Heap.Pushed(Earlier, old(Value()).heap, f.Entry()))
    {
      hide Heap.Pushed, timeouts.Valid;
      ghost var was := FilterValues();
      assert Placed(f.id, {f.id});
      timeouts.AddFilter(f);
      assert FilterValues() == was;
      forall id | id in filters ensures Placed(id, {}) {
        assert old(Placed(id, {f.id}));
      }
    }

    method SetExpiry(f: FilterBase, expiresAt: Time)
      requires f.id in filters && filters[f.id] == f && ValidBut({f.id})
      modifies f`expiresAt
      ensures ValidBut({f.id}) && f.Entry() == Timed(f.id, expiresAt)
      ensures var was := old(Value());
              Value() == was.(filters := was.filters[f.id := was.filters[f.id].(expiresAt := expiresAt)])
    {
      ghost var was, view := FilterValues(), timeouts.View();
      assert Placed(f.id, {f.id});
      MembersOnly(f);
      f.expiresAt := expiresAt;
      assert timeouts.View() == view;
      assert FilterValues() == was[f.id := f.Value()];
    }

    lemma MembersOnly(f: FilterBase)
      requires timeouts.Valid() && f !in timeouts.members
      ensures forall i :: 0 <= i < |timeouts.items| ==> timeouts.items[i] != f
    {
    }

    /** Takes a filter out of the heap. */
    method RemoveFilterTimeout(f: FilterBase) returns (removed: bool)
      requires Valid() && f.id in filters && filters[f.id] == f
      modifies timeouts, timeouts.members`heapIndex
      ensures ValidBut({f.id}) && removed == !f.ws && f.heapIndex == NO_INDEX_IN_HEAP
      ensures timeouts.members <= old(timeouts.members)
      ensures Value() == old(Value()).(heap := WithoutTimeout(old(Value()).heap, f.id))
    {
      hide Heap.Removed;
      assert Placed(f.id, {});
      PositionIsIndex(f);
      ghost var was := FilterValues();
      removed := timeouts.RemoveFilter(f);
      assert FilterValues() == was;
    }

    lemma PositionIsIndex(f: FilterBase)
      requires Valid() && f.id in filters && filters[f.id] == f
      ensures IndexOf(timeouts.View(), f.id) == if f.ws then |timeouts.View()| else f.heapIndex
    {
      assert Placed(f.id, {});
      var view := timeouts.View();
      forall i | 0 <= i < |view| && view[i].id == f.id ensures !f.ws && i == f.heapIndex {
        assert timeouts.items[i] in timeouts.members;
      }
    }

    /** An identifier never used before; `blocks` tells block filters from log filters. */
    method Install(id: Id, ws: bool, blocks: bool, now: Time)
      requires Valid() && id !in filters
      modifies this`filters, timeouts, timeouts.members`heapIndex
      ensures Valid()
      ensures Value() == NewFilter(old(Value()), id, ws, blocks, now + timeout)
    {
      hide Heap.Pushed;
      var f := Register(id, ws, blocks);
      if !ws {
        AddFilterTimeout(f, now);
      }
    }

    method Adopt(f: FilterBase)
      requires Valid() && f.id !in filters && f.heapIndex == NO_INDEX_IN_HEAP && f !in timeouts.members
      requires f.blocks ==> f.cursor < |stream.elems| && stream.elems[f.cursor] == f.block
      modifies this`filters
      ensures ValidBut(if f.ws then {} else {f.id}) && filters == old(filters)[f.id := f]
      ensures Value() == old(Value()).(filters := old(Value()).filters[f.id := f.Value()])
    {
      ghost var was := FilterValues();
      filters := filters[f.id := f];
      assert FilterValues() == was[f.id := f.Value()];
      forall k | k in filters ensures Placed(k, if f.ws then {} else {f.id}) {
        assert k != f.id ==> old(Placed(k, {}));
      }
    }

    method Register(id: Id, ws: bool, blocks: bool) returns (f: FilterBase)
      requires Valid() && id !in filters
      modifies this`filters
      ensures ValidBut(if ws then {} else {id}) && fresh(f) && f.id == id && f.ws == ws
      ensures filters == old(filters)[id := f]
      ensures var was := old(Value());
              Value() == was.(filters := was.filters[id := Filter(ws, 0, if blocks then Some(|was.stream|) else None)])
    {
      f := new FilterBase(id, ws, blocks, stream.head, |stream.elems| - 1);
      Adopt(f);
    }

    method RemoveFilterByID(id: Id) returns (ok: bool)
      requires Valid()
      modifies this`filters, timeouts, timeouts.members`heapIndex
      ensures Valid() && ok == (id in old(filters))
      ensures Value() == Uninstall(old(Value()), id)
    {
      hide WithoutTimeout;
      if id !in filters {
        return false;
      }
      assert Placed(id, {});
      var removed := RemoveFilterTimeout(filters[id]);
      Forget(id);
      ok := true;
    }

    method Forget(id: Id)
      requires id in filters && ValidBut({id})
      modifies this`filters
      ensures Valid() && Value() == old(Value()).(filters := old(Value()).filters - {id})
    {
      ghost var was := FilterValues();
      assert Placed(id, {id});
      filters := filters - {id};
      assert FilterValues() == was - {id};
      forall k | k in filters ensures Placed(k, {}) {
        assert old(Placed(k, {id}));
      }
    }

    /** Advances a block filter to the head of the stream. */
    method TakeBlockUpdates(f: FilterBase) returns (updates: seq<BlockId>)
      requires Valid() && f.id in filters && filters[f.id] == f && f.blocks
      modifies f`block, f`cursor
      ensures Valid() && updates == Updates(old(Value()), f.id)
      ensures Value() == CaughtUp(old(Value()), f.id)
    {
      hide ValidBut;
      OwnCursor(f);
      var head;
      updates, head := GetUpdates(f.block, stream, f.cursor);
      SetHeadElem(f, head, |stream.elems| - 1);
    }

    lemma OwnCursor(f: FilterBase)
      requires Valid() && f.id in filters && filters[f.id] == f && f.blocks
      ensures stream.Valid() && f.cursor < |stream.elems| && stream.elems[f.cursor] == f.block
    {
      assert Placed(f.id, {});
    }

    method SetHeadElem(f: FilterBase, head: HeadElem, ghost cursor: nat)
      requires Valid() && f.id in filters && filters[f.id] == f && f.blocks
      requires cursor < |stream.elems| && stream.elems[cursor] == head
      modifies f`block, f`cursor
      ensures Valid()
      ensures var was := old(Value());
              Value() == was.(filters := was.filters[f.id := was.filters[f.id].(cursor := Some(cursor))])
    {
      ghost var was, view := FilterValues(), timeouts.View();
      f.block, f.cursor := head, cursor;
      assert timeouts.View() == view;
      assert FilterValues() == was[f.id := f.Value()];
      forall k | k in filters ensures Placed(k, {}) {
        assert old(Placed(k, {}));
      }
    }

    method GetFilterChanges(id: Id, now: Time) returns (changes: Changes)
      requires Valid()
      modifies timeouts, timeouts.members
      ensures Valid() && (Value(), changes) == Poll(old(Value()), id, now + timeout)
    {
      hide ValidBut, WithoutTimeout, WithTimeout, CaughtUp, Updates;
      if id !in filters {
        return NotFound;
      }
      var f := filters[id];
      OwnId(id);
      if f.ws {
        return WebSocketFilter;
      }
      if f.blocks {
        var updates := TakeBlockUpdates(f);
        changes := Changes(updates);
      } else {
        NothingToTake(Value(), id);
        changes := Changes([]);
      }
      RefreshFilterTimeout(f, now);
    }

    lemma OwnId(id: Id)
      requires Valid() && id in filters
      ensures filters[id].id == id && (!filters[id].ws ==> filters[id] in timeouts.members)
    {
      assert Placed(id, {});
    }

    method RefreshFilterTimeout(f: FilterBase, now: Time)
      requires Valid() && f.id in filters && filters[f.id] == f && !f.ws && f in timeouts.members
      modifies timeouts, timeouts.members`heapIndex, f`expiresAt
      ensures Valid()
      ensures var was := old(Value());
              Value() == WithTimeout(was.(heap := WithoutTimeout(was.heap, f.id)), f.id, now + timeout)
    {
      hide ValidBut, WithoutTimeout, WithTimeout;
      var removed := RemoveFilterTimeout(f);
      AddFilterTimeout(f, now);
    }

    /** A new block reaches every filter's stream. */
    method PushBlock(b: BlockId)
      requires Valid()
      modifies stream, stream.head
      ensures Valid() && Value() == Push(old(Value()), b)
    {
      ghost var was, view := FilterValues(), timeouts.View();
      stream.Push(b);
      assert timeouts.View() == view && FilterValues() == was;
      forall k | k in filters ensures Placed(k, {}) {
        assert old(Placed(k, {}));
      }
    }

    /** The filter that will expire next. */
    method NextTimeoutFilter() returns (next: Option<Timed>)
      requires Valid() && FilterInv(Value())
      ensures next.None? <==> forall id :: id in Value().filters ==> Value().filters[id].ws
      ensures next.Some? ==> forall id :: id in Value().filters && !Value().filters[id].ws ==>
                                            next.value.expiresAt <= Value().filters[id].expiresAt
    {
      hide ValidBut, Heap.IsHeap;
      ghost var m := Value();
      forall id | id in m.filters && !m.filters[id].ws
        ensures m.heap != [] && m.heap[0].expiresAt <= m.filters[id].expiresAt
      {
        RootExpiresFirst(m, id);
        assert m.heap[0] in m.heap;
      }
      if |timeouts.items| == 0 {
        return None;
      }
      assert m.heap[0] in m.heap;
      next := Some(Timed(timeouts.items[0].id, timeouts.items[0].expiresAt));
    }
  }

  lemma NothingToTake(m: Manager, id: Id)
    requires id in m.filters && m.filters[id].cursor.None?
    ensures CaughtUp(m, id) == m && Updates(m, id) == []
  {
  }
}
