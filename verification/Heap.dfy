/** Binary heaps in a slice, as Go's container/heap keeps them. */
module Heap {
  /** `less` compares like a strict weak order: its negation, read backwards, is a total
      preorder. */
  ghost predicate Order<T(!new)>(less: (T, T) -> bool) {
    && (forall a, b :: less(a, b) ==> !less(b, a))
    && (forall a, b, c :: !less(b, a) && !less(c, b) ==> !less(c, a))
  }

  function Parent(k: int): int {
    (k - 1) / 2
  }

  /** The element at `k` is not before its parent. */
  predicate Ok<T>(less: (T, T) -> bool, q: seq<T>, k: int)
    requires 1 <= k < |q|
  {
    !less(q[k], q[Parent(k)])
  }

  ghost predicate IsHeap<T>(less: (T, T) -> bool, q: seq<T>) {
    forall k :: 1 <= k < |q| ==> Ok(less, q, k)
  }

  /** The root comes before everything else. */
  lemma {:induction false} RootIsFirst<T(!new)>(less: (T, T) -> bool, q: seq<T>, i: int)
    requires Order(less) && IsHeap(less, q) && 0 <= i < |q|
    ensures !less(q[i], q[0])
  {
    if i > 0 {
      assert Ok(less, q, i);
      RootIsFirst(less, q, Parent(i));
    }
  }

  function Swap<T>(q: seq<T>, i: int, j: int): seq<T>
    requires 0 <= i < |q| && 0 <= j < |q|
  {
    q[i := q[j]][j := q[i]]
  }

  lemma SwapKeepsElements<T>(q: seq<T>, i: int, j: int)
    requires 0 <= i < |q| && 0 <= j < |q|
    ensures multiset(Swap(q, i, j)) == multiset(q)
  {
  }

  /** A heap except that `j` may come before its parent. */
  ghost predicate UpHole<T>(less: (T, T) -> bool, q: seq<T>, j: int) {
    && 0 <= j < |q|
    && (forall k :: 1 <= k < |q| && k != j ==> Ok(less, q, k))
    && (j > 0 ==> forall k :: 1 <= k < |q| && Parent(k) == j ==> !less(q[k], q[Parent(j)]))
  }

  /** A heap except around `i`, which may come before its parent or after its children. */
  ghost predicate Hole<T>(less: (T, T) -> bool, q: seq<T>, i: int) {
    && 0 <= i
    && (forall k :: 1 <= k < |q| && k != i && Parent(k) != i ==> Ok(less, q, k))
    && (i > 0 ==> forall k :: 1 <= k < |q| && Parent(k) == i ==> !less(q[k], q[Parent(i)]))
  }

  lemma UpStep<T(!new)>(less: (T, T) -> bool, q: seq<T>, j: int)
    requires Order(less) && UpHole(less, q, j) && j > 0 && less(q[j], q[Parent(j)])
    ensures UpHole(less, Swap(q, j, Parent(j)), Parent(j))
  {
    var p := Parent(j);
    var r := Swap(q, j, p);
    forall k | 1 <= k < |q| && k != p ensures Ok(less, r, k) {
      if k != j && Parent(k) != j {
        assert Ok(less, q, k);
      }
    }
    if p > 0 {
      assert Ok(less, q, p);
      forall k | 1 <= k < |q| && Parent(k) == p ensures !less(r[k], r[Parent(p)]) {
        if k != j {
          assert Ok(less, q, k);
        }
      }
    }
  }

  /** Moves the element at `j` up to its place. */
  function UpFrom<T>(less: (T, T) -> bool, q: seq<T>, j: int): (r: seq<T>)
    requires 0 <= j < |q|
    ensures |r| == |q|
    decreases j
  {
    if j == 0 || !less(q[j], q[Parent(j)]) then q else UpFrom(less, Swap(q, j, Parent(j)), Parent(j))
  }

  lemma {:induction false} UpMakesHeap<T(!new)>(less: (T, T) -> bool, q: seq<T>, j: int)
    requires Order(less) && UpHole(less, q, j)
    ensures IsHeap(less, UpFrom(less, q, j)) && multiset(UpFrom(less, q, j)) == multiset(q)
    decreases j
  {
    if j > 0 && less(q[j], q[Parent(j)]) {
      UpStep(less, q, j);
      SwapKeepsElements(q, j, Parent(j));
      UpMakesHeap(less, Swap(q, j, Parent(j)), Parent(j));
    }
  }

  method Up<T>(less: (T, T) -> bool, q: seq<T>, j0: int) returns (r: seq<T>)
    requires 0 <= j0 < |q|
    ensures r == UpFrom(less, q, j0)
  {
    r := q;
    var j := j0;
    while true
      invariant 0 <= j < |r| && UpFrom(less, r, j) == UpFrom(less, q, j0)
      decreases j
    {
      if j == 0 || !less(r[j], r[Parent(j)]) {
        break;
      }
      r, j := Swap(r, j, Parent(j)), Parent(j);
    }
  }

  /** The child of `i` that comes first. */
  function FirstChild<T>(less: (T, T) -> bool, q: seq<T>, i: int): int
    requires 0 <= i && 2 * i + 1 < |q|
  {
    if 2 * i + 2 < |q| && less(q[2 * i + 2], q[2 * i + 1]) then 2 * i + 2 else 2 * i + 1
  }

  lemma DownStep<T(!new)>(less: (T, T) -> bool, q: seq<T>, i: int)
    requires Order(less) && Hole(less, q, i) && 2 * i + 1 < |q|
    requires less(q[FirstChild(less, q, i)], q[i])
    ensures var j := FirstChild(less, q, i);
            var r := Swap(q, i, j);
            Hole(less, r, j) && Ok(less, r, j) && (i > 0 ==> Ok(less, r, i))
  {
    var j := FirstChild(less, q, i);
    var r := Swap(q, i, j);
    assert Parent(j) == i;
    forall k | 1 <= k < |q| && k != j && Parent(k) != j ensures Ok(less, r, k) {
      if Parent(k) != i && k != i {
        assert Ok(less, q, k);
      }
    }
    forall k | 1 <= k < |q| && Parent(k) == j ensures !less(r[k], r[i]) {
      assert Ok(less, q, k);
    }
  }

  lemma DownDone<T(!new)>(less: (T, T) -> bool, q: seq<T>, i: int)
    requires Order(less) && Hole(less, q, i)
    requires 2 * i + 1 < |q| ==> !less(q[FirstChild(less, q, i)], q[i])
    ensures forall k :: 1 <= k < |q| && k != i ==> Ok(less, q, k)
  {
    forall k | 1 <= k < |q| && Parent(k) == i ensures Ok(less, q, k) {
      assert k == 2 * i + 1 || k == 2 * i + 2;
    }
  }

  /** Where moving down from `i` ends, and the slice then. */
  function DownFrom<T>(less: (T, T) -> bool, q: seq<T>, i: int): (r: (seq<T>, int))
    requires 0 <= i
    ensures |r.0| == |q| && r.1 >= i
    decreases |q| - i
  {
    if 2 * i + 1 >= |q| || !less(q[FirstChild(less, q, i)], q[i]) then (q, i)
    else DownFrom(less, Swap(q, i, FirstChild(less, q, i)), FirstChild(less, q, i))
  }

  /** Moving down repairs the heap below; if nothing moved, only the parent is left to check. */
  lemma {:induction false} DownRepairs<T(!new)>(less: (T, T) -> bool, q: seq<T>, i: int)
    requires Order(less) && 0 <= i && Hole(less, q, i)
    ensures var (r, j) := DownFrom(less, q, i);
            && multiset(r) == multiset(q)
            && (forall k :: 1 <= k < |q| && k != i ==> Ok(less, r, k))
            && (j == i ==> r == q)
            && (j > i > 0 ==> Ok(less, r, i))
    decreases |q| - i
  {
    if 2 * i + 1 >= |q| || !less(q[FirstChild(less, q, i)], q[i]) {
      DownDone(less, q, i);
    } else {
      var j := FirstChild(less, q, i);
      DownStep(less, q, i);
      SwapKeepsElements(q, i, j);
      DownRepairsOnce(less, Swap(q, i, j), j);
    }
  }

  lemma {:induction false} DownRepairsOnce<T(!new)>(less: (T, T) -> bool, q: seq<T>, j: int)
    requires Order(less) && 1 <= j < |q| && Hole(less, q, j) && Ok(less, q, j)
    ensures var r := DownFrom(less, q, j).0; IsHeap(less, r) && multiset(r) == multiset(q)
    decreases |q| - j
  {
    if 2 * j + 1 >= |q| || !less(q[FirstChild(less, q, j)], q[j]) {
      DownDone(less, q, j);
    } else {
      var i := FirstChild(less, q, j);
      DownStep(less, q, j);
      SwapKeepsElements(q, j, i);
      DownRepairsOnce(less, Swap(q, j, i), i);
    }
  }

  method Down<T>(less: (T, T) -> bool, q: seq<T>, i0: int) returns (r: seq<T>, moved: bool)
    requires 0 <= i0
    ensures r == DownFrom(less, q, i0).0 && moved == (DownFrom(less, q, i0).1 > i0)
  {
    r := q;
    var i := i0;
    while true
      invariant i0 <= i && |r| == |q| && DownFrom(less, r, i) == DownFrom(less, q, i0)
      decreases |q| - i
    {
      if 2 * i + 1 >= |r| {
        break;
      }
      var j := FirstChild(less, r, i);
      if !less(r[j], r[i]) {
        break;
      }
      r, i := Swap(r, i, j), j;
    }
    moved := i > i0;
  }

  // ---------- The operations ----------

  function Pushed<T>(less: (T, T) -> bool, q: seq<T>, x: T): (r: seq<T>)
    ensures |r| == |q| + 1
  {
    UpFrom(less, q + [x], |q|)
  }

  lemma PushKeepsHeap<T(!new)>(less: (T, T) -> bool, q: seq<T>, x: T)
    requires Order(less) && IsHeap(less, q)
    ensures IsHeap(less, Pushed(less, q, x)) && multiset(Pushed(less, q, x)) == multiset(q) + multiset{x}
  {
    var p := q + [x];
    forall k | 1 <= k < |p| && k != |q| ensures Ok(less, p, k) {
      assert Ok(less, q, k);
    }
    UpMakesHeap(less, p, |q|);
  }

  method Push<T>(less: (T, T) -> bool, q: seq<T>, x: T) returns (r: seq<T>)
    ensures r == Pushed(less, q, x)
  {
    r := Up(less, q + [x], |q|);
  }

  /** The slice once the root, `q[0]`, is popped. */
  function Popped<T>(less: (T, T) -> bool, q: seq<T>): (r: seq<T>)
    requires q != []
    ensures |r| == |q| - 1
  {
    DownFrom(less, Swap(q, 0, |q| - 1)[..|q| - 1], 0).0
  }

  lemma PopKeepsHeap<T(!new)>(less: (T, T) -> bool, q: seq<T>)
    requires Order(less) && IsHeap(less, q) && q != []
    ensures IsHeap(less, Popped(less, q)) && multiset(q) == multiset(Popped(less, q)) + multiset{q[0]}
  {
    HoleAfterRemove(less, q, 0);
    CutLast(q, 0);
    DownRepairs(less, Swap(q, 0, |q| - 1)[..|q| - 1], 0);
  }

  method Pop<T>(less: (T, T) -> bool, q: seq<T>) returns (r: seq<T>, x: T)
    requires q != []
    ensures x == q[0] && r == Popped(less, q)
  {
    var n := |q| - 1;
    var p := Swap(q, 0, n);
    var moved;
    r, moved := Down(less, p[..n], 0);
    x := p[n];
  }

  /** The slice once the element at `i` is taken out. */
  function Removed<T>(less: (T, T) -> bool, q: seq<T>, i: int): (r: seq<T>)
    requires 0 <= i < |q|
    ensures |r| == |q| - 1
  {
    var n := |q| - 1;
    var p := Swap(q, i, n)[..n];
    if i == n then p else
      var (r, j) := DownFrom(less, p, i);
      if j > i then r else UpFrom(less, r, i)
  }

  lemma RemoveKeepsHeap<T(!new)>(less: (T, T) -> bool, q: seq<T>, i: int)
    requires Order(less) && IsHeap(less, q) && 0 <= i < |q|
    ensures IsHeap(less, Removed(less, q, i)) && multiset(q) == multiset(Removed(less, q, i)) + multiset{q[i]}
  {
    var n := |q| - 1;
    var p := Swap(q, i, n)[..n];
    HoleAfterRemove(less, q, i);
    CutLast(q, i);
    if i != n {
      DownRepairs(less, p, i);
      if DownFrom(less, p, i).1 == i {
        UpMakesHeap(less, p, i);
      }
    }
  }

  lemma CutLast<T>(q: seq<T>, i: int)
    requires 0 <= i < |q|
    ensures multiset(q) == multiset(Swap(q, i, |q| - 1)[..|q| - 1]) + multiset{q[i]}
  {
    var p := Swap(q, i, |q| - 1);
    SwapKeepsElements(q, i, |q| - 1);
    assert p == p[..|q| - 1] + [q[i]];
  }

  lemma HoleAfterRemove<T(!new)>(less: (T, T) -> bool, q: seq<T>, i: int)
    requires Order(less) && IsHeap(less, q) && 0 <= i < |q|
    ensures Hole(less, Swap(q, i, |q| - 1)[..|q| - 1], i)
    ensures i == |q| - 1 ==> IsHeap(less, Swap(q, i, |q| - 1)[..|q| - 1])
  {
    var n := |q| - 1;
    var p := Swap(q, i, n)[..n];
    forall k | 1 <= k < n && k != i && Parent(k) != i ensures Ok(less, p, k) {
      assert Ok(less, q, k);
    }
    if 0 < i < n {
      assert Ok(less, q, i);
      forall k | 1 <= k < n && Parent(k) == i ensures !less(p[k], p[Parent(i)]) {
        assert Ok(less, q, k);
      }
    }
  }
}
