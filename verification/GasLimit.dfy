/** The gas limit of a block against its parent's (blockchain/blockchain.go), and the header
    a local builder fills in (consensus/dev/dev.go). */
module GasLimit {
  import opened Words
  import opened WorldState
  import opened BlockExec
  import opened BlockLaws

  const DIVISOR := 1024
  const TWO_63: int := 0x8000_0000_0000_0000

  function Min(a: uint64, b: uint64): uint64 { if a < b then a else b }

  function Max(a: uint64, b: uint64): uint64 { if a > b then a else b }

  /** The limit of the next block; a target of 0 means none was set. */
  function Calculate(parent: uint64, target: uint64): uint64 {
    if target == 0 then parent
    else if parent == target then target
    else
      var delta := parent / DIVISOR;
      if parent < target then Min(target, Wrap(parent + delta)) else Max(target, Max(parent - delta, 0))
  }

  /** Reinterprets 64 bits as a signed number. */
  function Signed(x: int): int {
    var w := Wrap(x);
    if w < TWO_63 then w else w - TWO_64
  }

  /** The absolute difference as the code computes it, on signed 64-bit values. */
  function Distance(parent: uint64, limit: uint64): uint64 {
    var diff := Signed(Signed(parent) - Signed(limit));
    Wrap(if diff < 0 then Signed(diff * -1) else diff)
  }

  predicate Verify(number: uint64, limit: uint64, used: uint64, parent: uint64) {
    used <= limit && (number == 0 || Distance(parent, limit) <= parent / DIVISOR)
  }

  lemma SignedSmall(x: int)
    requires -TWO_63 <= x < TWO_63
    ensures Signed(x) == x
  {
    if x < 0 {
      WrapShift(x);
    }
  }

  lemma WrapShift(x: int)
    ensures Wrap(x + TWO_64) == Wrap(x)
  {
  }

  lemma SignedShift(x: int)
    ensures Signed(x + TWO_64) == Signed(x)
  {
    WrapShift(x);
  }

  lemma SignedOf(x: uint64)
    ensures Signed(x) == if x < TWO_63 then x else x - TWO_64
  {
  }

  /** Signed subtraction wraps like the exact difference. */
  lemma SignedDifference(x: uint64, y: uint64)
    ensures Signed(Signed(x) - Signed(y)) == Signed(x - y)
  {
    SignedOf(x);
    SignedOf(y);
    SignedShift(x - y);
    SignedShift(x - y - TWO_64);
    hide Signed;
  }

  lemma DistanceIsAbs(parent: uint64, limit: uint64)
    requires -TWO_63 < parent - limit < TWO_63
    ensures Distance(parent, limit) == Abs(parent - limit)
  {
    SignedDifference(parent, limit);
    SignedSmall(parent - limit);
    SignedSmall(limit - parent);
  }

  function Abs(x: int): int { if x < 0 then -x else x }

  /** Farther apart, the distance is measured the other way round the ring of 64-bit words. */
  lemma DistanceFar(parent: uint64, limit: uint64)
    requires Abs(parent - limit) >= TWO_63
    ensures Distance(parent, limit) == TWO_64 - Abs(parent - limit)
  {
    var d := if parent > limit then TWO_64 else -TWO_64;
    SignedDifference(parent, limit);
    SignedShift(parent - limit);
    SignedShift(parent - limit - TWO_64);
    if parent - limit == TWO_63 {
      assert Signed(parent - limit) == -TWO_63 && Signed(TWO_63) == -TWO_63;
    } else if limit - parent == TWO_63 {
      assert Signed(parent - limit) == -TWO_63 && Signed(TWO_63) == -TWO_63;
    } else {
      SignedSmall(parent - limit - d);
      SignedSmall(d - (parent - limit));
    }
  }

  /** The check as its comment promises it: at most 1/1024 of the parent's limit in either
      direction. */
  predicate Promised(number: uint64, limit: uint64, used: uint64, parent: uint64) {
    used <= limit && (number == 0 || Abs(parent - limit) <= parent / DIVISOR)
  }

  /** The code keeps the promise exactly unless the limits are so far apart that the short
      way round is within the bound; in particular while both are below 2^63. */
  lemma VerifyMeaningIff(number: uint64, limit: uint64, used: uint64, parent: uint64)
    ensures (Verify(number, limit, used, parent) <==> Promised(number, limit, used, parent)) <==>
            !(number != 0 && used <= limit && TWO_64 - Abs(parent - limit) <= parent / DIVISOR)
    ensures limit < TWO_63 && parent < TWO_63 ==>
              (Verify(number, limit, used, parent) <==> Promised(number, limit, used, parent))
  {
    hide Distance;
    if Abs(parent - limit) >= TWO_63 {
      DistanceFar(parent, limit);
    } else {
      DistanceIsAbs(parent, limit);
    }
  }

  /** Beyond that it can pass limits that lie far apart. */
  lemma VerifyFarApart()
    ensures Verify(1, 0, 0, MAX_UINT64) && Abs(MAX_UINT64 - 0) > MAX_UINT64 / DIVISOR
  {
    DistanceFar(MAX_UINT64, 0);
  }

  /** The next limit stays within 1/1024 of the parent's, lands on the target or moves
      towards it and never past it, exactly unless raising the parent's limit overflows. */
  lemma CalculateMoves(parent: uint64, target: uint64)
    ensures var next := Calculate(parent, target);
            (Abs(parent - next) <= parent / DIVISOR
             && (target != 0 ==> parent <= next <= target || target <= next <= parent)
             && (target == 0 ==> next == parent))
            <==> !(target != 0 && parent < target && parent + parent / DIVISOR >= TWO_64)
  {
  }

  lemma DistanceOfShift(parent: uint64, d: int)
    requires -TWO_63 < d < TWO_63
    ensures Distance(parent, Wrap(parent + d)) == Abs(d)
  {
    var h := Wrap(parent + d);
    assert h == parent + d || h == parent + d + TWO_64 || h == parent + d - TWO_64;
    SignedDifference(parent, h);
    SignedShift(-d);
    SignedShift(-d - TWO_64);
    SignedSmall(-d);
    SignedSmall(d);
    hide Signed;
  }

  /** Whatever the parent's limit and the target, the check accepts the calculated limit:
      both wrap in the same way. */
  lemma CalculatedPasses(number: uint64, parent: uint64, target: uint64, used: uint64)
    requires used <= Calculate(parent, target)
    ensures Verify(number, Calculate(parent, target), used, parent)
  {
    var next := Calculate(parent, target);
    var d := if target != 0 && parent < target && parent + parent / DIVISOR >= TWO_64
             then parent / DIVISOR else next - parent;
    if target != 0 && parent < target && parent + parent / DIVISOR >= TWO_64 {
      assert Wrap(parent + d) == parent + d - TWO_64;
      assert next == Wrap(parent + d);
    } else {
      CalculateMoves(parent, target);
      assert next == Wrap(parent + d);
    }
    DistanceOfShift(parent, d);
  }

  /** Every block built locally, from any transactions with any outcomes, has a header that
      passes the check against its parent. */
  lemma BuiltHeaderPasses(base: Base, parent: uint64, target: uint64, number: uint64,
                          events: seq<BlockEvent>, env: Env)
    requires forall e :: e in events ==> RunIsMetered(e.m, env.forks)
    ensures var limit := Calculate(parent, target);
            var block := RunBlock(BeginBlock(base, limit), events, env);
            Verify(number, limit, block.totalGas, parent)
  {
    var limit := Calculate(parent, target);
    BlockStaysWithinLimit(base, limit, events, env);
    CalculatedPasses(number, parent, target, RunBlock(BeginBlock(base, limit), events, env).totalGas);
  }
}
