/** Definitions shared by every model: optional values, 64-bit unsigned words, finite sums. */

module Wrappers {
  datatype Option<+T> = None | Some(value: T) {
    predicate IsFailure() {
      None?
    }

    function PropagateFailure<U>(): Option<U>
      requires IsFailure()
    {
      None
    }

    function Extract(): T
      requires !IsFailure()
    {
      value
    }
  }
}

/** Go's `uint64`: integers modulo 2^64. */
module Words {
  const TWO_64: int := 0x1_0000_0000_0000_0000

  type uint64 = x: int | 0 <= x < TWO_64

  const MAX_UINT64: uint64 := TWO_64 - 1

  /** The value a uint64 operation leaves behind when the exact result is `x`. */
  function Wrap(x: int): uint64 {
    x % TWO_64
  }

  lemma WrapOfWrap(x: int, y: int)
    ensures Wrap(Wrap(x) + y) == Wrap(x + y)
  {
  }
}

/** Map equality, key by key. */
module Maps {
  predicate SameAt<K, V(==)>(m: map<K, V>, n: map<K, V>, k: K) {
    (k in m <==> k in n) && (k in m ==> m[k] == n[k])
  }

  lemma Extensional<K(!new), V>(m: map<K, V>, n: map<K, V>)
    requires forall k :: SameAt(m, n, k)
    ensures m == n
  {
    forall k ensures k in m.Keys <==> k in n.Keys {
      assert SameAt(m, n, k);
    }
    assert m.Keys == n.Keys;
    forall k | k in m ensures m[k] == n[k] {
      assert SameAt(m, n, k);
    }
  }
}

/** Sums over finite maps, independent of the order in which the keys are visited. */
module Sums {
  ghost function Sum<K>(m: map<K, int>): int
    decreases m.Keys
  {
    if m.Keys == {} then 0 else
      var k :| k in m.Keys;
      m[k] + Sum(m - {k})
  }

  function At<K>(m: map<K, int>, k: K): int {
    if k in m then m[k] else 0
  }

  /** Any key may be taken out first. */
  lemma {:induction false} SumWithout<K>(m: map<K, int>, k: K)
    requires k in m
    ensures Sum(m) == m[k] + Sum(m - {k})
    decreases m.Keys
  {
    var j :| j in m.Keys && Sum(m) == m[j] + Sum(m - {j});
    if j != k {
      SumWithout(m - {j}, k);
      SumWithout(m - {k}, j);
      assert m - {j} - {k} == m - {k} - {j};
    }
  }

  lemma SumUpdate<K>(m: map<K, int>, k: K, v: int)
    ensures Sum(m[k := v]) == Sum(m) - At(m, k) + v
  {
    SumWithout(m[k := v], k);
    assert m[k := v] - {k} == m - {k};
    if k in m {
      SumWithout(m, k);
    } else {
      assert m - {k} == m;
    }
  }

  lemma {:induction false} SumUnion<K>(m: map<K, int>, n: map<K, int>)
    requires m.Keys !! n.Keys
    ensures Sum(m + n) == Sum(m) + Sum(n)
    decreases n.Keys
  {
    if n.Keys == {} {
      assert m + n == m;
    } else {
      var k :| k in n.Keys;
      SumUnion(m, n - {k});
      SumWithout(n, k);
      SumWithout(m + n, k);
      assert (m + n) - {k} == m + (n - {k});
    }
  }

  lemma SumZeroIff<K(!new)>(m: map<K, int>)
    requires forall k :: k in m ==> m[k] >= 0
    ensures Sum(m) == 0 <==> forall k :: k in m ==> m[k] == 0
  {
    forall k | k in m && m[k] != 0
      ensures Sum(m) > 0
    {
      SumWithout(m, k);
      SumNonNegative(m - {k});
    }
    if forall k :: k in m ==> m[k] == 0 {
      SumOfZeros(m);
    }
  }

  lemma {:induction false} SumOfZeros<K>(m: map<K, int>)
    requires forall k :: k in m ==> m[k] == 0
    ensures Sum(m) == 0
    decreases m.Keys
  {
    if m.Keys != {} {
      var k :| k in m.Keys && Sum(m) == m[k] + Sum(m - {k});
      SumOfZeros(m - {k});
    }
  }

  lemma {:induction false} SumNonNegative<K>(m: map<K, int>)
    requires forall k :: k in m ==> m[k] >= 0
    ensures Sum(m) >= 0
    decreases m.Keys
  {
    if m.Keys != {} {
      var k :| k in m.Keys && Sum(m) == m[k] + Sum(m - {k});
      SumNonNegative(m - {k});
    }
  }
}
