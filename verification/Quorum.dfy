/** Validator sets (validators/set.go). */
module ValidatorSet {
  import opened Wrappers

  type Address = nat

  datatype ValidatorType = ECDSA | BLS

  datatype Validator = Validator(kind: ValidatorType, addr: Address, blsKey: seq<int>)

  datatype SetError = MismatchType | AlreadyExists | NotFound

  function Addresses(vs: seq<Validator>): set<Address> {
    set v | v in vs :: v.addr
  }

  predicate Distinct(vs: seq<Validator>) {
    forall i, j :: 0 <= i < j < |vs| ==> vs[i].addr != vs[j].addr
  }

  /** In a set with distinct addresses, members and addresses are the same number. */
  lemma {:induction false} DistinctCount(vs: seq<Validator>)
    requires Distinct(vs)
    ensures |Addresses(vs)| == |vs|
  {
    if vs != [] {
      var n := |vs| - 1;
      DistinctCount(vs[..n]);
      assert vs == vs[..n] + [vs[n]];
      assert Addresses(vs) == Addresses(vs[..n]) + {vs[n].addr};
      assert vs[n].addr !in Addresses(vs[..n]);
    }
  }

  function Position(vs: seq<Validator>, addr: Address): (r: int)
    ensures -1 <= r < |vs|
    ensures r == -1 <==> addr !in Addresses(vs)
    ensures r >= 0 ==> vs[r].addr == addr && addr !in Addresses(vs[..r])
  {
    if vs == [] then -1 else
      var n := |vs| - 1;
      assert vs == vs[..n] + [vs[n]];
      var r := Position(vs[..n], addr);
      if r >= 0 then (assert vs[..n][..r] == vs[..r]; r) else if vs[n].addr == addr then n else -1
  }

  function Added(vs: seq<Validator>, v: Validator): seq<Validator> {
    if v.addr in Addresses(vs) then vs else vs + [v]
  }

  function Removed(vs: seq<Validator>, addr: Address): seq<Validator> {
    var i := Position(vs, addr);
    if i == -1 then vs else vs[..i] + vs[i + 1..]
  }

  function Merged(vs: seq<Validator>, others: seq<Validator>): seq<Validator> {
    if others == [] then vs else Added(Merged(vs, others[..|others| - 1]), others[|others| - 1])
  }

  lemma AddKeepsDistinct(vs: seq<Validator>, v: Validator)
    requires Distinct(vs)
    ensures Distinct(Added(vs, v)) && Addresses(Added(vs, v)) == Addresses(vs) + {v.addr}
  {
    if v.addr !in Addresses(vs) {
      forall i | 0 <= i < |vs| ensures vs[i].addr != v.addr {
        assert vs[i] in vs;
      }
    }
  }

  lemma RemoveKeepsDistinct(vs: seq<Validator>, addr: Address)
    requires Distinct(vs)
    ensures Distinct(Removed(vs, addr)) && Addresses(Removed(vs, addr)) == Addresses(vs) - {addr}
  {
    var i := Position(vs, addr);
    if i >= 0 {
      var r := Removed(vs, addr);
      forall v | v in vs && v.addr != addr ensures v in r {
        var j :| 0 <= j < |vs| && vs[j] == v;
        assert if j < i then r[j] == v else r[j - 1] == v;
      }
      forall k | 0 <= k < |r| ensures r[k] in vs && r[k].addr != addr {
        assert r[k] == if k < i then vs[k] else vs[k + 1];
      }
    }
  }

  /** Merging adds exactly the addresses that were missing, behind the existing members. */
  lemma {:induction false} MergeIsUnion(vs: seq<Validator>, others: seq<Validator>)
    requires Distinct(vs)
    ensures Distinct(Merged(vs, others)) && vs <= Merged(vs, others)
    ensures Addresses(Merged(vs, others)) == Addresses(vs) + Addresses(others)
  {
    hide Distinct;
    if others == [] {
      assert Addresses(others) == {};
    } else {
      var n := |others| - 1;
      MergeIsUnion(vs, others[..n]);
      AddKeepsDistinct(Merged(vs, others[..n]), others[n]);
      assert others == others[..n] + [others[n]];
      assert Addresses(others) == Addresses(others[..n]) + {others[n].addr};
    }
  }

  /** Removing a validator that was just added restores the set. */
  lemma RemoveUndoesAdd(vs: seq<Validator>, v: Validator)
    requires v.addr !in Addresses(vs)
    ensures Removed(Added(vs, v), v.addr) == vs
  {
    var r := Added(vs, v);
    assert r[..|vs|] == vs;
    assert v in r;
    forall k | 0 <= k < |vs| ensures r[k].addr != v.addr {
      assert vs[k] in vs;
    }
  }

  // ---------- Everything a set goes through ----------

  datatype SetOp = Add(v: Validator) | Del(v: Validator) | Merge(kind: ValidatorType, others: seq<Validator>)

  /** Operations of another validator type change nothing. */
  function Apply(kind: ValidatorType, vs: seq<Validator>, op: SetOp): seq<Validator> {
    match op
    case Add(v) => if v.kind == kind then Added(vs, v) else vs
    case Del(v) => if v.kind == kind then Removed(vs, v.addr) else vs
    case Merge(k, others) => if k == kind then Merged(vs, others) else vs
  }

  function ApplyAll(kind: ValidatorType, ops: seq<SetOp>): seq<Validator> {
    if ops == [] then [] else Apply(kind, ApplyAll(kind, ops[..|ops| - 1]), ops[|ops| - 1])
  }

  lemma {:induction false} BuiltSetIsDistinct(kind: ValidatorType, ops: seq<SetOp>)
    ensures var vs := ApplyAll(kind, ops); Distinct(vs) && |Addresses(vs)| == |vs|
  {
    if ops != [] {
      var n := |ops| - 1;
      BuiltSetIsDistinct(kind, ops[..n]);
      var vs := ApplyAll(kind, ops[..n]);
      match ops[n]
      case Add(v) => AddKeepsDistinct(vs, v);
      case Del(v) => RemoveKeepsDistinct(vs, v.addr);
      case Merge(_, others) => MergeIsUnion(vs, others);
    }
    DistinctCount(ApplyAll(kind, ops));
  }

  // ---------- The set as it runs ----------

  class Validators {
    const kind: ValidatorType
    var members: seq<Validator>

    constructor (kind: ValidatorType)
      ensures this.kind == kind && members == []
    {
      this.kind := kind;
      members := [];
    }

    method Index(addr: Address) returns (r: int)
      ensures r == Position(members, addr)
    {
      for i := 0 to |members|
        invariant Position(members[..i], addr) == -1
      {
        assert members[..i + 1][..i] == members[..i];
        if members[i].addr == addr {
          PositionFound(members, addr, i);
          return i;
        }
      }
      assert members[..|members|] == members;
      r := -1;
    }

    method Includes(addr: Address) returns (r: bool)
      ensures r <==> addr in Addresses(members)
    {
      var i := Index(addr);
      r := i != -1;
    }

    method AddValidator(v: Validator) returns (err: Option<SetError>)
      modifies this
      ensures members == Apply(kind, old(members), Add(v))
      ensures err.None? <==> v.kind == kind && v.addr !in Addresses(old(members))
      ensures err == Some(MismatchType) <==> v.kind != kind
    {
      if kind != v.kind {
        return Some(MismatchType);
      }
      var included := Includes(v.addr);
      if included {
        return Some(AlreadyExists);
      }
      members := members + [v];
      err := None;
    }

    method DelValidator(v: Validator) returns (err: Option<SetError>)
      modifies this
      ensures members == Apply(kind, old(members), Del(v))
      ensures err.None? <==> v.kind == kind && v.addr in Addresses(old(members))
      ensures err == Some(MismatchType) <==> v.kind != kind
    {
      if kind != v.kind {
        return Some(MismatchType);
      }
      var index := Index(v.addr);
      if index == -1 {
        return Some(NotFound);
      }
      members := members[..index] + members[index + 1..];
      err := None;
    }

    /** Members of the other set have its type. */
    method MergeWith(otherKind: ValidatorType, others: seq<Validator>) returns (err: Option<SetError>)
      requires forall v :: v in others ==> v.kind == otherKind
      modifies this
      ensures members == Apply(kind, old(members), Merge(otherKind, others))
      ensures err == if kind != otherKind then Some(MismatchType) else None
    {
      if kind != otherKind {
        return Some(MismatchType);
      }
      for i := 0 to |others|
        invariant members == Merged(old(members), others[..i])
      {
        assert others[..i + 1][..i] == others[..i];
        var included := Includes(others[i].addr);
        if !included {
          err := AddValidator(others[i]);
          if err.Some? {
            return;
          }
        }
      }
      assert others[..|others|] == others;
      err := None;
    }
  }

  lemma PositionFound(vs: seq<Validator>, addr: Address, i: nat)
    requires i < |vs| && vs[i].addr == addr && Position(vs[..i], addr) == -1
    ensures Position(vs, addr) == i
  {
    var r := Position(vs, addr);
    assert vs[i] in vs;
    forall k | 0 <= k < i ensures vs[k].addr != addr {
      assert vs[k] in vs[..i];
    }
    forall k | i < k <= |vs| ensures addr in Addresses(vs[..k]) {
      assert vs[..k][i] in vs[..k];
    }
  }
}

/** Quorum sizes and proposer selection (consensus/ibft/validators.go). */
module Quorum {
  import opened Words
  import opened ValidatorSet

  /** Division as Go does it: a set without members tolerates no fault either. */
  function MaxFaulty(n: nat): nat {
    if n == 0 then 0 else (n - 1) / 3
  }

  /** The largest number of faults that is less than a third of the validators. */
  lemma MaxFaultyIff(n: nat, f: nat)
    requires n > 0
    ensures f <= MaxFaulty(n) <==> 3 * f < n
  {
  }

  function LegacyQuorum(n: nat): nat {
    2 * MaxFaulty(n) + 1
  }

  /** Two thirds, rounded up, or everyone when no fault is tolerated. */
  function OptimalQuorum(n: nat): nat {
    if MaxFaulty(n) == 0 then n else (2 * n + 2) / 3
  }

  /** The formula depends on the height of the block. */
  function QuorumSize(n: nat, height: uint64, quorumSizeBlock: uint64): nat {
    if height < quorumSizeBlock then LegacyQuorum(n) else OptimalQuorum(n)
  }

  /** Any two quorums of `q` validators share more members than may be faulty. */
  ghost predicate Intersects(all: set<Address>, q: nat) {
    forall a, b :: a <= all && b <= all && |a| >= q && |b| >= q ==> |a * b| > MaxFaulty(|all|)
  }

  lemma Overlap(all: set<Address>, a: set<Address>, b: set<Address>)
    requires a <= all && b <= all
    ensures |a * b| >= |a| + |b| - |all|
  {
    Within(a + b, all);
  }

  lemma {:induction false} Within(a: set<Address>, b: set<Address>)
    requires a <= b
    ensures |a| <= |b|
  {
    assert b == a + (b - a);
  }

  lemma {:induction false} Pick(all: set<Address>, k: nat) returns (r: set<Address>)
    requires k <= |all|
    ensures r <= all && |r| == k
    decreases k
  {
    if k == 0 {
      r := {};
    } else {
      var x :| x in all;
      r := Pick(all - {x}, k - 1);
      r := r + {x};
    }
  }

  /** Two quorums that share as little as they can. */
  lemma Spread(all: set<Address>, q: nat) returns (a: set<Address>, b: set<Address>)
    requires q <= |all|
    ensures a <= all && b <= all && |a| == q && |b| == q
    ensures |a * b| == if 2 * q <= |all| then 0 else 2 * q - |all|
  {
    a := Pick(all, q);
    var others := all - a;
    assert |others| == |all| - q;
    if 2 * q <= |all| {
      b := Pick(others, q);
      assert a * b == {};
    } else {
      var c := Pick(a, 2 * q - |all|);
      b := others + c;
      assert others * c == {};
      assert a * b == c;
    }
  }

  /** A quorum size intersects exactly when it exceeds half of N + F; sizes nobody can reach
      intersect for want of quorums. */
  lemma IntersectsIff(all: set<Address>, q: nat)
    ensures Intersects(all, q) <==> 2 * q > |all| + MaxFaulty(|all|) || q > |all|
  {
    if q > |all| {
      forall a | a <= all ensures |a| < q {
        Within(a, all);
      }
    } else if 2 * q > |all| + MaxFaulty(|all|) {
      forall a, b | a <= all && b <= all && |a| >= q && |b| >= q ensures |a * b| > MaxFaulty(|all|) {
        Overlap(all, a, b);
      }
    } else {
      var a, b := Spread(all, q);
    }
  }

  lemma OptimalIsTwoThirds(n: nat)
    ensures MaxFaulty(n) > 0 ==> 3 * OptimalQuorum(n) >= 2 * n && 3 * (OptimalQuorum(n) - 1) < 2 * n
  {
  }

  /** For every set built by additions, removals and merges that is not empty: two optimal
      quorums share more than F members, and the others can reach one without F of them. */
  lemma OptimalIsSafeAndLive(kind: ValidatorType, ops: seq<SetOp>)
    requires ApplyAll(kind, ops) != []
    ensures var all := Addresses(ApplyAll(kind, ops));
            var n := |ApplyAll(kind, ops)|;
            |all| == n && Intersects(all, OptimalQuorum(n)) && n - MaxFaulty(n) >= OptimalQuorum(n)
  {
    hide Intersects;
    BuiltSetIsDistinct(kind, ops);
    var n := |ApplyAll(kind, ops)|;
    IntersectsIff(Addresses(ApplyAll(kind, ops)), OptimalQuorum(n));
  }

  /** The legacy size is safe exactly when N = 3F + 1 (or there is nobody to vote). */
  lemma LegacyIsSafeIff(all: set<Address>)
    ensures Intersects(all, LegacyQuorum(|all|)) <==> |all| == 3 * MaxFaulty(|all|) + 1 || |all| == 0
  {
    hide Intersects;
    IntersectsIff(all, LegacyQuorum(|all|));
  }

  /** No smaller size is safe, with one exception: three validators could do with two. */
  lemma OptimalIsLeastIff(all: set<Address>)
    requires all != {}
    ensures (forall q: nat {:trigger Intersects(all, q)} :: q < OptimalQuorum(|all|) ==> !Intersects(all, q)) <==> |all| != 3
  {
    hide Intersects;
    forall q: nat
      ensures Intersects(all, q) <==> 2 * q > |all| + MaxFaulty(|all|) || q > |all|
    {
      IntersectsIff(all, q);
    }
    if |all| == 3 {
      assert Intersects(all, 2);
    }
  }

  /** With at most F faulty validators, and the others sealing one block a height at most,
      two blocks of one height cannot both reach a quorum: at heights that use the optimal
      size, and at all heights when N = 3F + 1. */
  lemma OneBlockPerHeight(all: set<Address>, faulty: set<Address>, seals: map<Address, set<nat>>,
                          height: uint64, quorumSizeBlock: uint64, x: nat, y: nat,
                          forX: set<Address>, forY: set<Address>)
    requires all != {} && faulty <= all && |faulty| <= MaxFaulty(|all|)
    requires forall v :: v in all - faulty && v in seals ==> |seals[v]| <= 1
    requires height >= quorumSizeBlock || |all| == 3 * MaxFaulty(|all|) + 1
    requires forX <= all && (forall v :: v in forX ==> v in seals && x in seals[v])
    requires forY <= all && (forall v :: v in forY ==> v in seals && y in seals[v])
    requires |forX| >= QuorumSize(|all|, height, quorumSizeBlock)
    requires |forY| >= QuorumSize(|all|, height, quorumSizeBlock)
    ensures x == y
  {
    var both := forX * forY;
    IntersectsIff(all, QuorumSize(|all|, height, quorumSizeBlock));
    assert |both| > |faulty|;
    if both <= faulty {
      Within(both, faulty);
    }
    var v :| v in both && v !in faulty;
    if x != y {
      assert {x, y} <= seals[v];
      WithinBlocks({x, y}, seals[v]);
    }
  }

  lemma WithinBlocks(a: set<nat>, b: set<nat>)
    requires a <= b
    ensures |a| <= |b|
  {
    assert b == a + (b - a);
  }

  // ---------- Proposer ----------

  const ZERO_ADDRESS: Address := 0

  /** The position of the proposer. */
  function ProposerIndex(vs: seq<Validator>, round: uint64, lastProposer: Address): (r: nat)
    requires vs != []
  {
    var i := Position(vs, lastProposer);
    var offset := if i == -1 then 0 else i;
    (if lastProposer == ZERO_ADDRESS then round else Wrap(offset + round + 1)) % |vs|
  }

  /** Where the rotation stands at round zero. */
  function Start(vs: seq<Validator>, lastProposer: Address): nat {
    var i := Position(vs, lastProposer);
    if lastProposer == ZERO_ADDRESS then 0 else if i == -1 then 1 else i + 1
  }

  lemma ProposerRotates(vs: seq<Validator>, round: uint64, lastProposer: Address)
    requires vs != [] && Start(vs, lastProposer) + round < TWO_64
    ensures ProposerIndex(vs, round, lastProposer) == (Start(vs, lastProposer) + round) % |vs|
  {
  }

  /** In any N rounds in a row whose seeds do not overflow, every validator proposes exactly
      once. */
  lemma EveryoneProposesOnce(vs: seq<Validator>, first: uint64, lastProposer: Address, j: nat)
    returns (turn: uint64)
    requires j < |vs| && Start(vs, lastProposer) + first + |vs| <= TWO_64
    ensures first <= turn < first + |vs| && ProposerIndex(vs, turn, lastProposer) == j
    ensures forall round: uint64 :: first <= round < first + |vs| && ProposerIndex(vs, round, lastProposer) == j
                                    ==> round == turn
  {
    hide ProposerIndex, Start;
    var start := Start(vs, lastProposer) + first;
    turn := first + (j - start) % |vs|;
    TurnOf(start, j, |vs|, (j - start) % |vs|);
    ProposerRotates(vs, turn, lastProposer);
    forall round: uint64 | first <= round < first + |vs| && ProposerIndex(vs, round, lastProposer) == j
      ensures round == turn
    {
      ProposerRotates(vs, round, lastProposer);
      OneTurn(start, |vs|, round - first, turn - first);
    }
  }

  lemma SmallMultiple(n: int, d: int)
    requires n > 0
    ensures d >= 1 ==> n * d >= n
    ensures d <= -1 ==> n * d <= -n
  {
  }

  lemma TurnOf(start: nat, j: nat, n: nat, k: nat)
    requires j < n && k == (j - start) % n
    ensures k < n && (start + k) % n == j
  {
    var d := (j - start) / n;
    assert j - start == n * d + k;
    assert start + k == n * (-d) + j;
    ModOf(-d, j, n);
  }

  lemma ModOf(d: int, j: nat, n: nat)
    requires j < n
    ensures (n * d + j) % n == j
  {
    var q, r := (n * d + j) / n, (n * d + j) % n;
    assert n * (d - q) == r - j;
    SmallMultiple(n, d - q);
  }

  lemma OneTurn(start: nat, n: nat, m: nat, k: nat)
    requires m < n && k < n && (start + m) % n == (start + k) % n
    ensures m == k
  {
    var a, b := (start + m) / n, (start + k) / n;
    assert m - k == n * (a - b);
    SmallMultiple(n, a - b);
  }
}
