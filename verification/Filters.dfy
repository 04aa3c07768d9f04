/** The filters of the JSON-RPC server (jsonrpc/filter_manager.go): a heap of timeouts and a
    stream of blocks that every block filter reads at its own pace. */
module Filters {
  import opened Wrappers
  import opened Heap

  type Id = nat
  type Time = int
  type BlockId = nat

  /** An entry of the timeout heap. */
  datatype Timed = Timed(id: Id, expiresAt: Time)

  predicate Earlier(a: Timed, b: Timed) {
    a.expiresAt < b.expiresAt
  }

  lemma EarlierOrder()
    ensures Order(Earlier)
  {
  }

  /** `cursor` is how many blocks of the stream a block filter has passed; log filters have none. */
  datatype Filter = Filter(ws: bool, expiresAt: Time, cursor: Option<nat>)

  datatype Manager = Manager(filters: map<Id, Filter>, heap: seq<Timed>, stream: seq<BlockId>)

  // ---------- Operations ----------

  function IndexOf(heap: seq<Timed>, id: Id): (r: nat)
    ensures r <= |heap|
    ensures r < |heap| ==> heap[r].id == id
    ensures forall i :: 0 <= i < r ==> heap[i].id != id
  {
    if heap == [] || heap[0].id == id then 0 else 1 + IndexOf(heap[1..], id)
  }

  function WithTimeout(m: Manager, id: Id, expiresAt: Time): Manager
    requires id in m.filters
  {
    m.(filters := m.filters[id := m.filters[id].(expiresAt := expiresAt)],
       heap := Pushed(Earlier, m.heap, Timed(id, expiresAt)))
  }

  function WithoutTimeout(heap: seq<Timed>, id: Id): seq<Timed> {
    var i := IndexOf(heap, id);
    if i == |heap| then heap else Removed(Earlier, heap, i)
  }

  /** A block filter starts at the head of the stream. */
  function NewFilter(m: Manager, id: Id, ws: bool, blocks: bool, expiresAt: Time): Manager {
    var f := Filter(ws, 0, if blocks then Some(|m.stream|) else None);
    var n := m.(filters := m.filters[id := f]);
    if ws then n else WithTimeout(n, id, expiresAt)
  }

  function Uninstall(m: Manager, id: Id): Manager {
    if id !in m.filters then m else
      m.(filters := m.filters - {id}, heap := WithoutTimeout(m.heap, id))
  }

  function Push(m: Manager, b: BlockId): Manager {
    m.(stream := m.stream + [b])
  }

  function Updates(m: Manager, id: Id): seq<BlockId>
    requires id in m.filters
  {
    match m.filters[id].cursor
    case Some(c) => if c <= |m.stream| then m.stream[c..] else []
    case None => []
  }

  /** The filter has seen everything up to now. */
  function CaughtUp(m: Manager, id: Id): Manager
    requires id in m.filters
  {
    var f := m.filters[id];
    if f.cursor.None? then m else m.(filters := m.filters[id := f.(cursor := Some(|m.stream|))])
  }

  datatype Changes = NotFound | WebSocketFilter | Changes(blocks: seq<BlockId>)

  /** Hands out what is new and starts the timeout afresh. */
  function Poll(m: Manager, id: Id, expiresAt: Time): (Manager, Changes) {
    if id !in m.filters then (m, NotFound)
    else if m.filters[id].ws then (m, WebSocketFilter)
    else
      var n := CaughtUp(m, id);
      (WithTimeout(n.(heap := WithoutTimeout(n.heap, id)), id, expiresAt), Changes(Updates(m, id)))
  }

  // ---------- The invariant ----------

  function Entry(m: Manager, id: Id): Timed
    requires id in m.filters
  {
    Timed(id, m.filters[id].expiresAt)
  }

  /** The heap holds exactly the filters without a web socket, once each. */
  ghost predicate Listed(m: Manager) {
    && (forall id :: id in m.filters && !m.filters[id].ws ==> multiset(m.heap)[Entry(m, id)] == 1)
    && (forall e :: e in m.heap ==> e.id in m.filters && !m.filters[e.id].ws && e == Entry(m, e.id))
  }

  ghost predicate FilterInv(m: Manager) {
    && IsHeap(Earlier, m.heap) && Listed(m)
    && (forall id :: id in m.filters && m.filters[id].cursor.Some? ==> m.filters[id].cursor.value <= |m.stream|)
  }

  /** The root is the filter that expires first. */
  lemma RootExpiresFirst(m: Manager, id: Id)
    requires FilterInv(m) && id in m.filters && !m.filters[id].ws
    ensures m.heap != [] && m.heap[0].id in m.filters && !m.filters[m.heap[0].id].ws
    ensures m.filters[m.heap[0].id].expiresAt <= m.filters[id].expiresAt
  {
    EarlierOrder();
    var e := Entry(m, id);
    assert e in multiset(m.heap);
    var i :| 0 <= i < |m.heap| && m.heap[i] == e;
    RootIsFirst(Earlier, m.heap, i);
    assert m.heap[0] in m.heap;
  }

  lemma EntryIndex(m: Manager, id: Id)
    requires Listed(m) && id in m.filters
    ensures var i := IndexOf(m.heap, id);
            if m.filters[id].ws then i == |m.heap| else i < |m.heap| && m.heap[i] == Entry(m, id)
  {
    var i := IndexOf(m.heap, id);
    forall k | 0 <= k < |m.heap| ensures m.heap[k] == Entry(m, m.heap[k].id) && !m.filters[m.heap[k].id].ws {
      assert m.heap[k] in m.heap;
    }
    if !m.filters[id].ws {
      assert Entry(m, id) in multiset(m.heap);
      var k :| 0 <= k < |m.heap| && m.heap[k] == Entry(m, id);
      assert i <= k;
    }
  }

  /** What remains once the entry of a filter is out of the heap. */
  ghost predicate ListedBut(m: Manager, gone: Id, heap: seq<Timed>) {
    && IsHeap(Earlier, heap)
    && (forall id :: id in m.filters && id != gone && !m.filters[id].ws ==> multiset(heap)[Entry(m, id)] == 1)
    && (forall e :: e in heap ==> e.id in m.filters && e.id != gone && !m.filters[e.id].ws && e == Entry(m, e.id))
  }

  lemma TakenOut(m: Manager, id: Id)
    requires FilterInv(m) && id in m.filters
    ensures ListedBut(m, id, WithoutTimeout(m.heap, id))
  {
    hide Removed, IndexOf;
    EntryIndex(m, id);
    EarlierOrder();
    var i, heap := IndexOf(m.heap, id), WithoutTimeout(m.heap, id);
    if i < |m.heap| {
      RemoveKeepsHeap(Earlier, m.heap, i);
      forall e | e in heap ensures e in m.heap && e.id != id {
        assert e in multiset(heap);
        assert e in multiset(m.heap);
        assert e == Entry(m, e.id);
      }
    }
  }

  lemma PutIn(m: Manager, id: Id, heap: seq<Timed>, expiresAt: Time)
    requires ListedBut(m, id, heap) && id in m.filters && !m.filters[id].ws
    ensures var n := WithTimeout(m.(heap := heap), id, expiresAt); IsHeap(Earlier, n.heap) && Listed(n)
  {
    hide Pushed;
    EarlierOrder();
    var x := Timed(id, expiresAt);
    PushKeepsHeap(Earlier, heap, x);
    var n := WithTimeout(m.(heap := heap), id, expiresAt);
    assert x !in heap;
    forall e | e in n.heap ensures e in heap || e == x {
      assert e in multiset(n.heap);
    }
    forall k | k in n.filters && !n.filters[k].ws ensures multiset(n.heap)[Entry(n, k)] == 1 {
      if k != id {
        assert multiset(heap)[Entry(m, k)] == 1;
      }
    }
  }

  lemma NewKeepsInv(m: Manager, id: Id, ws: bool, blocks: bool, expiresAt: Time)
    requires FilterInv(m) && id !in m.filters
    ensures FilterInv(NewFilter(m, id, ws, blocks, expiresAt))
  {
    hide Pushed, IsHeap;
    var n := m.(filters := m.filters[id := Filter(ws, 0, if blocks then Some(|m.stream|) else None)]);
    if !ws {
      PutIn(n, id, m.heap, expiresAt);
    } else {
      assert forall k :: k in m.filters ==> n.filters[k] == m.filters[k];
    }
  }

  lemma UninstallKeepsInv(m: Manager, id: Id)
    requires FilterInv(m)
    ensures FilterInv(Uninstall(m, id))
  {
    if id in m.filters {
      hide WithoutTimeout, IsHeap;
      TakenOut(m, id);
    }
  }

  /** A poll answers with the blocks since the last one, puts the filter at the head of the
      stream and gives it the new time, in the table and in the heap; no other filter changes. */
  lemma PollAnswers(m: Manager, id: Id, expiresAt: Time)
    requires FilterInv(m) && id in m.filters && !m.filters[id].ws
    ensures var (n, r) := Poll(m, id, expiresAt);
            var f := m.filters[id];
            && n.stream == m.stream
            && n.filters == m.filters[id := Filter(false, expiresAt, if f.cursor.Some? then Some(|m.stream|) else None)]
            && multiset(n.heap) == multiset(m.heap) - multiset{Entry(m, id)} + multiset{Timed(id, expiresAt)}
            && (f.cursor.Some? ==> r.Changes? && m.stream == m.stream[..f.cursor.value] + r.blocks)
  {
    hide WithoutTimeout, Pushed, IsHeap, Listed;
    PolledHeap(m, id, expiresAt);
    assert m.filters[id].cursor.Some? ==> m.filters[id].cursor.value <= |m.stream|;
    hide FilterInv;
  }

  lemma PolledHeap(m: Manager, id: Id, expiresAt: Time)
    requires FilterInv(m) && id in m.filters && !m.filters[id].ws
    ensures multiset(Pushed(Earlier, WithoutTimeout(m.heap, id), Timed(id, expiresAt))) ==
            multiset(m.heap) - multiset{Entry(m, id)} + multiset{Timed(id, expiresAt)}
  {
    TakenOut(m, id);
    EntryTaken(m, id);
    EarlierOrder();
    hide WithoutTimeout, Pushed, Listed;
    PushKeepsHeap(Earlier, WithoutTimeout(m.heap, id), Timed(id, expiresAt));
  }

  /** A new filter has its time, in the table and in the heap, unless it is a web socket's; no
      other filter changes. */
  lemma NewAnswers(m: Manager, id: Id, ws: bool, blocks: bool, expiresAt: Time)
    requires FilterInv(m) && id !in m.filters
    ensures var n := NewFilter(m, id, ws, blocks, expiresAt);
            && n.stream == m.stream
            && n.filters == m.filters[id := Filter(ws, if ws then 0 else expiresAt, if blocks then Some(|m.stream|) else None)]
            && multiset(n.heap) == multiset(m.heap) + (if ws then multiset{} else multiset{Timed(id, expiresAt)})
  {
    hide Pushed;
    EarlierOrder();
    PushKeepsHeap(Earlier, m.heap, Timed(id, expiresAt));
    hide IsHeap, Listed, Order;
  }

  /** An uninstalled filter is gone from the table and from the heap, and nothing else is. */
  lemma UninstallAnswers(m: Manager, id: Id)
    requires FilterInv(m)
    ensures var n := Uninstall(m, id);
            && n.stream == m.stream && n.filters == m.filters - {id}
            && multiset(n.heap) ==
               multiset(m.heap) - if id in m.filters && !m.filters[id].ws then multiset{Entry(m, id)} else multiset{}
  {
    if id in m.filters {
      if m.filters[id].ws {
        EntryIndex(m, id);
      } else {
        EntryTaken(m, id);
      }
    } else {
      assert m.filters - {id} == m.filters;
    }
    hide Removed, IsHeap;
  }

  lemma EntryTaken(m: Manager, id: Id)
    requires FilterInv(m) && id in m.filters && !m.filters[id].ws
    ensures multiset(m.heap) == multiset(WithoutTimeout(m.heap, id)) + multiset{Entry(m, id)}
  {
    hide Removed, IndexOf;
    EntryIndex(m, id);
    EarlierOrder();
    RemoveKeepsHeap(Earlier, m.heap, IndexOf(m.heap, id));
  }

  lemma CaughtUpListedBut(m: Manager, id: Id, heap: seq<Timed>)
    requires id in m.filters && ListedBut(m, id, heap)
    ensures ListedBut(CaughtUp(m, id), id, heap)
  {
    hide IsHeap;
    var n := CaughtUp(m, id);
    assert forall k :: k in m.filters && k != id ==> n.filters[k] == m.filters[k];
  }

  lemma PollKeepsInv(m: Manager, id: Id, expiresAt: Time)
    requires FilterInv(m)
    ensures FilterInv(Poll(m, id, expiresAt).0)
  {
    if id in m.filters && !m.filters[id].ws {
      hide WithoutTimeout, IsHeap, Pushed, ListedBut, Listed;
      TakenOut(m, id);
      CaughtUpListedBut(m, id, WithoutTimeout(m.heap, id));
      var n := CaughtUp(m, id);
      PutIn(n, id, WithoutTimeout(m.heap, id), expiresAt);
    }
  }

  // ---------- Runs ----------

  datatype Event =
    | New(id: Id, ws: bool, blocks: bool, expiresAt: Time)
    | Remove(id: Id)
    | Polled(id: Id, expiresAt: Time)
    | NewBlock(block: BlockId)
    /** The updates of a web socket filter are taken to be written out. */
    | Flushed(id: Id)

  /** A run, with where each filter started and what it was handed so far. */
  datatype Run = Run(m: Manager, created: map<Id, nat>, delivered: map<Id, seq<BlockId>>)

  predicate Enabled(r: Run, e: Event) {
    match e
    case New(id, _, _, _) => id !in r.created
    case Flushed(id) => id in r.m.filters && r.m.filters[id].ws
    case _ => true
  }

  function Delivered(r: Run, id: Id, blocks: seq<BlockId>): map<Id, seq<BlockId>> {
    if id in r.delivered then r.delivered[id := r.delivered[id] + blocks] else r.delivered
  }

  function Step(r: Run, e: Event): Run
    requires Enabled(r, e)
  {
    match e
    case New(id, ws, blocks, expiresAt) =>
      Run(NewFilter(r.m, id, ws, blocks, expiresAt), r.created[id := |r.m.stream|], r.delivered[id := []])
    case Remove(id) => r.(m := Uninstall(r.m, id))
    case Polled(id, expiresAt) =>
      var (m, changes) := Poll(r.m, id, expiresAt);
      r.(m := m, delivered := if changes.Changes? then Delivered(r, id, changes.blocks) else r.delivered)
    case NewBlock(b) => r.(m := Push(r.m, b))
    case Flushed(id) => r.(m := CaughtUp(r.m, id), delivered := Delivered(r, id, Updates(r.m, id)))
  }

  /** The filter was handed every block from its creation up to its cursor, in order. */
  ghost predicate UpToDate(r: Run, id: Id)
    requires id in r.m.filters
  {
    && id in r.created && id in r.delivered
    && (r.m.filters[id].cursor.Some? ==>
          var c := r.m.filters[id].cursor.value;
          r.created[id] <= c <= |r.m.stream| && r.delivered[id] == r.m.stream[r.created[id]..c])
  }

  ghost predicate RunInv(r: Run) {
    && FilterInv(r.m) && r.m.filters.Keys <= r.created.Keys
    && forall id {:trigger UpToDate(r, id)} :: id in r.m.filters ==> UpToDate(r, id)
  }

  lemma StepKeepsFilterInv(r: Run, e: Event)
    requires FilterInv(r.m) && r.m.filters.Keys <= r.created.Keys && Enabled(r, e)
    ensures FilterInv(Step(r, e).m)
  {
    match e
    case New(id, ws, blocks, expiresAt) => NewKeepsInv(r.m, id, ws, blocks, expiresAt);
    case Remove(id) => UninstallKeepsInv(r.m, id);
    case Polled(id, expiresAt) => PollKeepsInv(r.m, id, expiresAt);
    case NewBlock(b) =>
    case Flushed(id) =>
  }

  lemma StepKeepsUpToDate(r: Run, e: Event, id: Id)
    requires RunInv(r) && Enabled(r, e) && id in Step(r, e).m.filters
    ensures UpToDate(Step(r, e), id)
  {
    hide FilterInv, UpToDate, Poll, NewFilter, Uninstall, Updates;
    assert id in r.m.filters ==> UpToDate(r, id);
    match e
    case New(n, ws, blocks, expiresAt) => NewUpToDate(r, n, ws, blocks, expiresAt, id);
    case Remove(n) => RemoveUpToDate(r, n, id);
    case Polled(n, expiresAt) => PollUpToDate(r, n, expiresAt, id);
    case NewBlock(b) => BlockUpToDate(r, b, id);
    case Flushed(n) => FlushUpToDate(r, n, id);
  }

  lemma NewUpToDate(r: Run, n: Id, ws: bool, blocks: bool, expiresAt: Time, id: Id)
    requires n !in r.created && id in Step(r, New(n, ws, blocks, expiresAt)).m.filters
    requires id in r.m.filters ==> UpToDate(r, id)
    ensures UpToDate(Step(r, New(n, ws, blocks, expiresAt)), id)
  {
    hide Pushed;
  }

  lemma RemoveUpToDate(r: Run, n: Id, id: Id)
    requires id in Step(r, Remove(n)).m.filters && (id in r.m.filters ==> UpToDate(r, id))
    ensures UpToDate(Step(r, Remove(n)), id)
  {
    hide WithoutTimeout;
  }

  /** Handing out what is new brings a filter up to date, and leaves the others. */
  lemma CatchUpToDate(r: Run, n: Id, id: Id)
    requires n in r.m.filters && id in r.m.filters && UpToDate(r, id)
    ensures UpToDate(r.(m := CaughtUp(r.m, n), delivered := Delivered(r, n, Updates(r.m, n))), id)
  {
    if id == n && r.m.filters[id].cursor.Some? {
      var c, from, all := r.m.filters[id].cursor.value, r.created[id], r.m.stream;
      assert all[from..c] + all[c..] == all[from..|all|];
    }
  }

  lemma PollUpToDate(r: Run, n: Id, expiresAt: Time, id: Id)
    requires id in Step(r, Polled(n, expiresAt)).m.filters && (id in r.m.filters ==> UpToDate(r, id))
    ensures UpToDate(Step(r, Polled(n, expiresAt)), id)
  {
    hide WithoutTimeout, Pushed;
    if n in r.m.filters && id in r.m.filters {
      CatchUpToDate(r, n, id);
    }
  }

  lemma BlockUpToDate(r: Run, b: BlockId, id: Id)
    requires id in r.m.filters && UpToDate(r, id)
    ensures UpToDate(Step(r, NewBlock(b)), id)
  {
  }

  lemma FlushUpToDate(r: Run, n: Id, id: Id)
    requires n in r.m.filters && r.m.filters[n].ws && id in r.m.filters && UpToDate(r, id)
    ensures id in Step(r, Flushed(n)).m.filters && UpToDate(Step(r, Flushed(n)), id)
  {
    CatchUpToDate(r, n, id);
  }

  lemma StepKeepsRunInv(r: Run, e: Event)
    requires RunInv(r) && Enabled(r, e)
    ensures RunInv(Step(r, e))
  {
    hide FilterInv, UpToDate, WithoutTimeout, Pushed;
    StepKeepsFilterInv(r, e);
    var s := Step(r, e);
    forall id | id in s.m.filters ensures UpToDate(s, id) {
      StepKeepsUpToDate(r, e, id);
    }
  }

  predicate AllEnabled(r: Run, events: seq<Event>)
    decreases |events|
  {
    events == [] || (Enabled(r, events[0]) && AllEnabled(Step(r, events[0]), events[1..]))
  }

  function RunAll(r: Run, events: seq<Event>): Run
    requires AllEnabled(r, events)
    decreases |events|
  {
    if events == [] then r else RunAll(Step(r, events[0]), events[1..])
  }

  lemma {:induction false} RunKeepsInv(r: Run, events: seq<Event>)
    requires RunInv(r) && AllEnabled(r, events)
    ensures RunInv(RunAll(r, events))
    decreases |events|
  {
    hide RunInv, Step;
    if events != [] {
      StepKeepsRunInv(r, events[0]);
      RunKeepsInv(Step(r, events[0]), events[1..]);
    }
  }

  const EMPTY_RUN := Run(Manager(map[], [], []), map[], map[])

  /** After any run, a poll leaves a block filter with every block pushed since it was
      created: each once, in order. And the timeout heap lists the filters without a web
      socket, the next to expire first. */
  lemma PollsDeliverEverything(events: seq<Event>, id: Id, expiresAt: Time)
    requires AllEnabled(EMPTY_RUN, events)
    requires var m := RunAll(EMPTY_RUN, events).m;
             id in m.filters && !m.filters[id].ws && m.filters[id].cursor.Some?
    ensures var r := RunAll(EMPTY_RUN, events);
            var s := Step(r, Polled(id, expiresAt));
            && id in r.created && r.created[id] <= |r.m.stream|
            && id in s.delivered && s.delivered[id] == r.m.stream[r.created[id]..]
            && FilterInv(s.m)
  {
    var r := RunAll(EMPTY_RUN, events);
    RunKeepsInv(EMPTY_RUN, events);
    hide RunAll, FilterInv, WithoutTimeout, Pushed;
    StepKeepsRunInv(r, Polled(id, expiresAt));
    assert UpToDate(r, id);
    assert UpToDate(Step(r, Polled(id, expiresAt)), id);
  }
}
