/** Fork choice by total difficulty (blockchain/blockchain.go): headers form a tree, the
    head is the heaviest of them, and a write extends the head, adds a fork or reorganises. */
module ForkChoice {
  type Hash = nat
  /** The parent hash of the genesis header. */
  const ZERO_HASH: Hash := 0

  datatype Header = Header(hash: Hash, parentHash: Hash, number: nat, difficulty: nat)

  /** The database and the current head. A header may be stored before its total difficulty
      is recorded; `td` holds the recorded ones. */
  datatype Chain = Chain(
    headers: map<Hash, Header>, td: map<Hash, nat>, canonical: map<nat, Hash>, forks: seq<Hash>,
    head: Header, headTD: nat, genesis: Header)

  // ---------- The tree of recorded headers ----------

  /** Recorded headers are stored under their own hash; each but the genesis follows a
      recorded parent. */
  ghost predicate Tree(c: Chain) {
    && c.genesis.hash in c.td
    && ZERO_HASH !in c.td
    && (forall h :: h in c.headers ==> c.headers[h].hash == h)
    && (forall h {:trigger Rooted(c, h)} :: h in c.td ==> Rooted(c, h))
  }

  ghost predicate Rooted(c: Chain, h: Hash)
    requires h in c.td
  {
    && h in c.headers
    && (if h == c.genesis.hash then
          c.headers[h] == c.genesis && c.genesis.parentHash == ZERO_HASH && c.td[h] == c.genesis.difficulty
        else
          var p := c.headers[h].parentHash;
          && p in c.td && p in c.headers
          && c.headers[h].number == c.headers[p].number + 1
          && c.td[h] == c.td[p] + c.headers[h].difficulty)
  }

  /** The head is recorded, no recorded header is heavier, and none is a child of it. */
  ghost predicate Heaviest(c: Chain) {
    && c.head.hash in c.td && c.head.hash in c.headers && c.headers[c.head.hash] == c.head
    && c.headTD == c.td[c.head.hash]
    && (forall h :: h in c.td ==> c.td[h] <= c.headTD)
    && (forall h :: h in c.td && h in c.headers ==> c.headers[h].parentHash != c.head.hash)
  }

  ghost predicate Inv(c: Chain) {
    Tree(c) && Heaviest(c)
  }

  // ---------- Ancestors ----------

  lemma {:induction false} AboveGenesis(c: Chain, h: Hash)
    requires Tree(c) && h in c.td
    ensures h in c.headers && c.headers[h].number >= c.genesis.number
    ensures c.headers[h].number == c.genesis.number ==> h == c.genesis.hash
    decreases if h in c.headers then c.headers[h].number else 0
  {
    assert Rooted(c, h);
    if h != c.genesis.hash {
      AboveGenesis(c, c.headers[h].parentHash);
    }
  }

  /** The ancestor of `h` (or `h` itself) with number `n`. */
  ghost function Ancestor(c: Chain, h: Hash, n: nat): (a: Hash)
    requires Tree(c) && h in c.td
    requires h in c.headers && c.genesis.number <= n <= c.headers[h].number
    ensures a in c.td && a in c.headers && c.headers[a].number == n
    decreases c.headers[h].number
  {
    assert Rooted(c, h);
    if c.headers[h].number == n then h else
      AboveGenesis(c, c.headers[h].parentHash);
      Ancestor(c, c.headers[h].parentHash, n)
  }

  /** An ancestor's ancestors are ancestors. */
  lemma {:induction false} AncestorOfAncestor(c: Chain, h: Hash, n: nat, m: nat)
    requires Tree(c) && h in c.td && h in c.headers
    requires c.genesis.number <= m <= n <= c.headers[h].number
    ensures Ancestor(c, Ancestor(c, h, n), m) == Ancestor(c, h, m)
    decreases c.headers[h].number
  {
    assert Rooted(c, h);
    if n < c.headers[h].number {
      AboveGenesis(c, c.headers[h].parentHash);
      AncestorOfAncestor(c, c.headers[h].parentHash, n, m);
    }
  }

  /** The sum of difficulties along the path to the genesis. */
  ghost function PathSum(c: Chain, h: Hash): nat
    requires Tree(c) && h in c.td && h in c.headers
    decreases c.headers[h].number
  {
    assert Rooted(c, h);
    if h == c.genesis.hash then c.genesis.difficulty
    else c.headers[h].difficulty + PathSum(c, c.headers[h].parentHash)
  }

  /** Every recorded total difficulty is the sum along the parent path. */
  lemma {:induction false} RecordedIsPathSum(c: Chain, h: Hash)
    requires Tree(c) && h in c.td && h in c.headers
    ensures c.td[h] == PathSum(c, h)
    decreases c.headers[h].number
  {
    assert Rooted(c, h);
    if h != c.genesis.hash {
      RecordedIsPathSum(c, c.headers[h].parentHash);
    }
  }

  /** No recorded header descends from the head. */
  lemma {:induction false} HeadIsLeaf(c: Chain, h: Hash)
    requires Inv(c) && h in c.td && h in c.headers
    requires c.head.number <= c.headers[h].number && c.genesis.number <= c.head.number
    ensures Ancestor(c, h, c.head.number) == c.head.hash ==> h == c.head.hash
    decreases c.headers[h].number
  {
    assert Rooted(c, h);
    if c.headers[h].number > c.head.number {
      AboveGenesis(c, c.headers[h].parentHash);
      HeadIsLeaf(c, c.headers[h].parentHash);
    }
  }

  // ---------- Writing a header ----------

  /** What the caller vouches for: hashes do not collide and numbers count up. */
  ghost predicate Admissible(c: Chain, h: Header) {
    && h.hash != ZERO_HASH
    && (h.hash in c.headers ==> c.headers[h.hash] == h)
    && (h.parentHash in c.td && h.parentHash in c.headers ==> h.number == c.headers[h.parentHash].number + 1)
  }

  function Stored(c: Chain, h: Header): Chain {
    c.(headers := c.headers[h.hash := h])
  }

  function Recorded(c: Chain, h: Header): Chain
    requires h.parentHash in c.td
  {
    c.(headers := c.headers[h.hash := h], td := c.td[h.hash := c.td[h.parentHash] + h.difficulty])
  }

  lemma RecordedAgain(c: Chain, h: Header)
    requires Tree(c) && Admissible(c, h) && h.parentHash in c.td && h.hash in c.td
    ensures Recorded(c, h) == c
  {
    assert Rooted(c, h.hash);
    assert c.td[h.hash := c.td[h.hash]] == c.td;
    assert c.headers[h.hash := h] == c.headers;
  }

  lemma RecordedTree(c: Chain, h: Header)
    requires Tree(c) && Admissible(c, h) && h.parentHash in c.td
    ensures Tree(Recorded(c, h))
  {
    if h.hash in c.td {
      RecordedAgain(c, h);
    } else {
      var r := Recorded(c, h);
      assert Rooted(c, h.parentHash) && Rooted(r, h.hash);
      forall x | x in c.td ensures Rooted(r, x) {
        assert Rooted(c, x);
      }
    }
  }

  /** A stored header that nothing is recorded about changes nothing in the tree. */
  lemma StoredTree(c: Chain, h: Header)
    requires Tree(c) && Admissible(c, h)
    ensures Tree(Stored(c, h))
  {
    forall x | x in c.td ensures Rooted(Stored(c, h), x) {
      assert Rooted(c, x);
      if x != c.genesis.hash {
        assert Rooted(c, c.headers[x].parentHash);
      }
    }
  }

  function DropFork(forks: seq<Hash>, p: Hash): seq<Hash> {
    if forks == [] then [] else
      DropFork(forks[..|forks| - 1], p) + if forks[|forks| - 1] != p then [forks[|forks| - 1]] else []
  }

  /** The fork list with `h` in place of its parent. */
  function AddFork(forks: seq<Hash>, h: Header): seq<Hash> {
    DropFork(forks, h.parentHash) + [h.hash]
  }

  /** The number index after a reorganisation: headers of the new branch from the old head's
      number on, and the new head. */
  ghost function Renumbered(c: Chain, oldHead: Header, newHead: Header): map<nat, Hash>
    requires Tree(c) && newHead.hash in c.td && newHead.hash in c.headers && c.headers[newHead.hash] == newHead
    requires c.genesis.number <= oldHead.number
  {
    (c.canonical + map n | oldHead.number <= n < newHead.number :: Ancestor(c, newHead.hash, n))[newHead.number := newHead.hash]
  }

  datatype Outcome = Extended | Forked | Reorganised | ParentUnknown

  ghost function Verdict(c: Chain, h: Header): Outcome {
    if h.parentHash == c.head.hash then Extended
    else if h.parentHash !in c.td then ParentUnknown
    else if c.td[h.parentHash] + h.difficulty > c.headTD then Reorganised
    else Forked
  }

  lemma HeadAboveGenesis(c: Chain)
    requires Inv(c)
    ensures c.genesis.number <= c.head.number
  {
    AboveGenesis(c, c.head.hash);
  }

  ghost function WriteHeader(c: Chain, h: Header): Chain
    requires Inv(c) && Admissible(c, h)
  {
    match Verdict(c, h)
    case ParentUnknown => Stored(c, h)
    case Extended =>
      Recorded(c, h).(canonical := c.canonical[h.number := h.hash], head := h, headTD := c.headTD + h.difficulty)
    case Forked => Recorded(c, h).(forks := AddFork(c.forks, h))
    case Reorganised =>
      RecordedTree(c, h);
      HeadAboveGenesis(c);
      Recorded(c, h).(canonical := Renumbered(Recorded(c, h), c.head, h), forks := AddFork(c.forks, c.head),
                      head := h, headTD := c.td[h.parentHash] + h.difficulty)
  }

  /** A header that becomes the head was not recorded before, so nothing descends from it. */
  lemma NewHeadIsNew(c: Chain, h: Header)
    requires Inv(c) && Admissible(c, h)
    requires Verdict(c, h).Extended? || Verdict(c, h).Reorganised?
    ensures h.hash !in c.td
  {
    assert h.hash in c.td ==> Rooted(c, h.hash);
  }

  lemma TreeIgnoresHead(c: Chain, d: Chain)
    requires Tree(c) && d.headers == c.headers && d.td == c.td && d.genesis == c.genesis
    ensures Tree(d)
  {
    forall h | h in d.td ensures Rooted(d, h) {
      assert Rooted(c, h);
    }
  }

  lemma NewHeadHeaviest(c: Chain, h: Header)
    requires Inv(c) && Admissible(c, h) && h.parentHash in c.td && h.hash !in c.td
    requires c.td[h.parentHash] + h.difficulty >= c.headTD
    ensures Heaviest(Recorded(c, h).(head := h, headTD := c.td[h.parentHash] + h.difficulty))
  {
    forall x | x in c.td ensures x in c.headers && c.headers[x].parentHash != h.hash {
      assert Rooted(c, x);
    }
  }

  lemma ForkNotHeavier(c: Chain, h: Header)
    requires Inv(c) && Admissible(c, h) && Verdict(c, h).Forked?
    ensures Heaviest(Recorded(c, h))
  {
    if h.hash in c.td {
      RecordedAgain(c, h);
    } else {
      assert Rooted(c, c.head.hash);
      assert forall x :: x in c.td ==> Rooted(c, x);
    }
  }

  /** Every header write keeps the tree well formed and the head the heaviest leaf. */
  lemma WriteKeepsInv(c: Chain, h: Header)
    requires Inv(c) && Admissible(c, h)
    ensures Inv(WriteHeader(c, h))
    ensures WriteHeader(c, h).headTD >= c.headTD
  {
    var d := WriteHeader(c, h);
    match Verdict(c, h)
    case ParentUnknown => StoredTree(c, h);
    case Extended =>
      NewHeadIsNew(c, h);
      RecordedTree(c, h);
      TreeIgnoresHead(Recorded(c, h), d);
      NewHeadHeaviest(c, h);
    case Reorganised =>
      NewHeadIsNew(c, h);
      RecordedTree(c, h);
      TreeIgnoresHead(Recorded(c, h), d);
      NewHeadHeaviest(c, h);
    case Forked =>
      RecordedTree(c, h);
      TreeIgnoresHead(Recorded(c, h), d);
      ForkNotHeavier(c, h);
  }

  // ---------- Runs ----------

  function GenesisChain(g: Header): Chain {
    Chain(map[g.hash := g], map[g.hash := g.difficulty], map[g.number := g.hash], [], g, g.difficulty, g)
  }

  lemma GenesisInv(g: Header)
    requires g.hash != ZERO_HASH && g.parentHash == ZERO_HASH
    ensures Inv(GenesisChain(g))
  {
    assert Rooted(GenesisChain(g), g.hash);
  }

  ghost predicate AllAdmissible(c: Chain, hs: seq<Header>)
    requires Inv(c)
    decreases |hs|
  {
    hs == [] ||
    (Admissible(c, hs[0]) && (WriteKeepsInv(c, hs[0]); AllAdmissible(WriteHeader(c, hs[0]), hs[1..])))
  }

  ghost function RunHeaders(c: Chain, hs: seq<Header>): Chain
    requires Inv(c) && AllAdmissible(c, hs)
    decreases |hs|
  {
    if hs == [] then c else
      WriteKeepsInv(c, hs[0]);
      RunHeaders(WriteHeader(c, hs[0]), hs[1..])
  }

  /** In every run of header writes, extensions, forks and reorganisations in any order: the
      head is the heaviest recorded header and a leaf, its difficulty never goes down, and
      all recorded difficulties are path sums. */
  lemma {:induction false} RunKeepsInv(c: Chain, hs: seq<Header>)
    requires Inv(c) && AllAdmissible(c, hs)
    ensures var d := RunHeaders(c, hs);
            && Inv(d) && d.headTD >= c.headTD
            && (forall h {:trigger PathSum(d, h)} :: h in d.td && h in d.headers ==> d.td[h] == PathSum(d, h) <= d.headTD)
    decreases |hs|
  {
    if hs != [] {
      WriteKeepsInv(c, hs[0]);
      RunKeepsInv(WriteHeader(c, hs[0]), hs[1..]);
    } else {
      forall h | h in c.td && h in c.headers ensures c.td[h] == PathSum(c, h) {
        RecordedIsPathSum(c, h);
      }
    }
  }

  // ---------- Branch tips ----------

  /** The head changes if and only if the header extends it or makes another branch strictly
      heavier: a branch as heavy as the head does not replace it. */
  lemma HeadChangesIff(c: Chain, h: Header)
    requires Inv(c) && Admissible(c, h)
    ensures var d := WriteHeader(c, h);
            && (d.head != c.head <==>
                  h.parentHash == c.head.hash || (h.parentHash in c.td && c.td[h.parentHash] + h.difficulty > c.headTD))
            && (d.head != c.head ==> d.head == h)
            && (h.hash in d.td <==> h.parentHash in c.td || h.hash in c.td)
            && (forall x :: x != h.hash ==> (x in d.td <==> x in c.td) && (x in c.td ==> d.td[x] == c.td[x]))
  {
    if Verdict(c, h).Extended? || Verdict(c, h).Reorganised? {
      NewHeadIsNew(c, h);
    }
  }

  /** A fork takes the place of its parent in the list. */
  lemma {:induction false} DropForkMembers(forks: seq<Hash>, p: Hash, x: Hash)
    ensures x in DropFork(forks, p) <==> x in forks && x != p
  {
    if forks != [] {
      DropForkMembers(forks[..|forks| - 1], p, x);
      assert forks == forks[..|forks| - 1] + [forks[|forks| - 1]];
    }
  }

  lemma AddForkMembers(forks: seq<Hash>, h: Header, x: Hash)
    ensures x in AddFork(forks, h) <==> x == h.hash || (x in forks && x != h.parentHash)
  {
    DropForkMembers(forks, h.parentHash, x);
  }

  /** A recorded header without a recorded child. */
  ghost predicate Tip(c: Chain, x: Hash) {
    x in c.td && forall y :: y in c.td && y in c.headers ==> c.headers[y].parentHash != x
  }

  /** Every tip but the head is in the fork list. */
  ghost predicate TipsListed(c: Chain) {
    forall x {:trigger Tip(c, x)} :: Tip(c, x) && x != c.head.hash ==> x in c.forks
  }

  lemma RecordedTips(c: Chain, h: Header, x: Hash)
    requires Tree(c) && Admissible(c, h) && h.parentHash in c.td && Tip(Recorded(c, h), x)
    ensures x != h.parentHash && (x == h.hash || Tip(c, x))
  {
    var d := Recorded(c, h);
    assert h.hash in d.td && d.headers[h.hash].parentHash == h.parentHash;
    if x != h.hash {
      forall y | y in c.td && y in c.headers ensures c.headers[y].parentHash != x {
        assert y in d.td && d.headers[y].parentHash != x;
      }
    }
  }

  lemma WriteKeepsTips(c: Chain, h: Header)
    requires Inv(c) && Admissible(c, h) && TipsListed(c)
    ensures TipsListed(WriteHeader(c, h))
  {
    var d := WriteHeader(c, h);
    forall x | Tip(d, x) && x != d.head.hash ensures x in d.forks {
      WriteListsTip(c, h, x);
    }
  }

  lemma WriteListsTip(c: Chain, h: Header, x: Hash)
    requires Inv(c) && Admissible(c, h) && TipsListed(c)
    requires Tip(WriteHeader(c, h), x) && x != WriteHeader(c, h).head.hash
    ensures x in WriteHeader(c, h).forks
  {
    hide AddFork;
    if Verdict(c, h).ParentUnknown? {
      StoredTip(c, h, x);
    } else {
      assert Tip(Recorded(c, h), x);
      RecordedTips(c, h, x);
      AddForkMembers(c.forks, h, x);
      AddForkMembers(c.forks, c.head, x);
      if Tip(c, x) {
        HeadParentNoTip(c, x);
      }
    }
  }

  lemma HeadParentNoTip(c: Chain, x: Hash)
    requires Inv(c) && Tip(c, x)
    ensures x != c.head.parentHash
  {
    assert c.headers[c.head.hash] == c.head;
  }

  lemma StoredTip(c: Chain, h: Header, x: Hash)
    requires Inv(c) && Admissible(c, h) && Tip(Stored(c, h), x)
    ensures Tip(c, x)
  {
    forall y | y in c.td && y in c.headers ensures c.headers[y].parentHash != x {
      assert y in Stored(c, h).headers && Stored(c, h).headers[y] == c.headers[y];
    }
  }

  lemma GenesisTips(g: Header)
    ensures TipsListed(GenesisChain(g))
  {
  }

  /** In every run of header writes no branch is lost: its tip is the head or is listed as a
      fork. */
  lemma {:induction false} RunListsTips(c: Chain, hs: seq<Header>)
    requires Inv(c) && AllAdmissible(c, hs) && TipsListed(c)
    ensures TipsListed(RunHeaders(c, hs))
    decreases |hs|
  {
    hide Inv, TipsListed, Admissible, WriteHeader;
    if hs != [] {
      WriteKeepsInv(c, hs[0]);
      WriteKeepsTips(c, hs[0]);
      RunListsTips(WriteHeader(c, hs[0]), hs[1..]);
    }
  }

  // ---------- Where two branches meet ----------

  function Min(a: nat, b: nat): nat { if a < b then a else b }

  /** `n` is the number of the highest common ancestor of `a` and `b`. */
  ghost predicate MeetAt(c: Chain, a: Hash, b: Hash, n: nat)
    requires Tree(c) && a in c.td && b in c.td && a in c.headers && b in c.headers
  {
    && c.genesis.number <= n <= Min(c.headers[a].number, c.headers[b].number)
    && Ancestor(c, a, n) == Ancestor(c, b, n)
    && forall m {:trigger Ancestor(c, a, m)} ::
         n < m <= Min(c.headers[a].number, c.headers[b].number) ==> Ancestor(c, a, m) != Ancestor(c, b, m)
  }

  ghost predicate SameBelow(c: Chain, d: Chain) {
    && c.genesis == d.genesis
    && forall h :: h in c.td ==> h in d.td && h in c.headers && h in d.headers && c.headers[h] == d.headers[h]
  }

  lemma {:induction false} AncestorAgrees(c: Chain, d: Chain, h: Hash, n: nat)
    requires Tree(c) && Tree(d) && SameBelow(c, d)
    requires h in c.td && h in c.headers && c.genesis.number <= n <= c.headers[h].number
    ensures h in d.headers && n <= d.headers[h].number && Ancestor(c, h, n) == Ancestor(d, h, n)
    decreases c.headers[h].number
  {
    assert Rooted(c, h);
    if n < c.headers[h].number {
      AboveGenesis(c, c.headers[h].parentHash);
      AncestorAgrees(c, d, c.headers[h].parentHash, n);
    }
  }

  // ---------- The number index ----------

  /** The number index lists the path from the genesis to the head, and nothing else. */
  ghost predicate Linked(c: Chain)
    requires Inv(c)
  {
    assert Tree(c);
    && (forall n :: n in c.canonical ==> c.genesis.number <= n <= c.head.number)
    && (forall n :: c.genesis.number <= n <= c.head.number ==>
          n in c.canonical && c.canonical[n] == Ancestor(c, c.head.hash, n))
  }

  lemma GenesisLinked(g: Header)
    requires g.hash != ZERO_HASH && g.parentHash == ZERO_HASH
    ensures Inv(GenesisChain(g)) && Linked(GenesisChain(g))
  {
    GenesisInv(g);
  }

  lemma WriteKeepsBelow(c: Chain, h: Header)
    requires Inv(c) && Admissible(c, h)
    ensures SameBelow(c, WriteHeader(c, h))
    ensures h.parentHash in c.td ==> SameBelow(c, Recorded(c, h))
  {
    forall x | x in c.td ensures x in c.headers {
      assert Rooted(c, x);
    }
  }

  /** Extending the head, or adding a fork, keeps the index linked. */
  lemma ExtendKeepsLinked(c: Chain, h: Header)
    requires Inv(c) && Admissible(c, h) && Linked(c)
    requires !Verdict(c, h).Reorganised?
    ensures Inv(WriteHeader(c, h)) && Linked(WriteHeader(c, h))
  {
    WriteKeepsInv(c, h);
    WriteKeepsBelow(c, h);
    var d := WriteHeader(c, h);
    forall n | c.genesis.number <= n <= d.head.number
      ensures n in d.canonical && d.canonical[n] == Ancestor(d, d.head.hash, n)
    {
      assert Rooted(d, d.head.hash);
      if n <= c.head.number {
        AncestorAgrees(c, d, c.head.hash, n);
      }
    }
    HeadAboveGenesis(c);
    assert Verdict(c, h).Extended? ==> h.number == c.head.number + 1;
    assert forall n :: n in d.canonical ==> n in c.canonical || n == d.head.number;
  }

  lemma ReorgIndexAt(c: Chain, h: Header, n: nat, meet: nat)
    requires Inv(c) && Admissible(c, h) && Linked(c) && Verdict(c, h).Reorganised?
    requires Inv(WriteHeader(c, h)) && SameBelow(c, WriteHeader(c, h))
    requires MeetAt(WriteHeader(c, h), c.head.hash, h.hash, meet)
    requires c.genesis.number <= n <= h.number
    ensures var d := WriteHeader(c, h);
            n in d.canonical && d.canonical[n] == Ancestor(d, h.hash, n)
            <==> !(meet < n < Min(c.head.number, h.number))
  {
    var d := WriteHeader(c, h);
    RecordedTree(c, h);
    assert SameBelow(Recorded(c, h), d) by {
      forall x | x in Recorded(c, h).td ensures x in d.headers {
        assert Rooted(d, x);
      }
    }
    if n < Min(c.head.number, h.number) {
      AncestorAgrees(c, d, c.head.hash, n);
      if n <= meet {
        AncestorOfAncestor(d, c.head.hash, meet, n);
        AncestorOfAncestor(d, h.hash, meet, n);
      }
    } else if n < h.number {
      AncestorAgrees(Recorded(c, h), d, h.hash, n);
    }
  }

  /** The branches part right below the old head, and the new head is not lower than it. */
  predicate Shallow(c: Chain, h: Header, meet: nat) {
    c.head.number <= h.number && c.head.number <= meet + 1
  }

  /** After a reorganisation the index is linked if and only if the branches part right below
      the old head and the new head is not lower: headers walked further down are never
      renumbered, and numbers above the new head are never removed. */
  lemma ReorgLinkedIff(c: Chain, h: Header, meet: nat)
    requires Inv(c) && Admissible(c, h) && Linked(c) && Verdict(c, h).Reorganised?
    requires (WriteKeepsInv(c, h); WriteKeepsBelow(c, h); MeetAt(WriteHeader(c, h), c.head.hash, h.hash, meet))
    ensures (WriteKeepsInv(c, h); Linked(WriteHeader(c, h))) <==> Shallow(c, h, meet)
  {
    WriteKeepsInv(c, h);
    WriteKeepsBelow(c, h);
    HeadAboveGenesis(c);
    var d := WriteHeader(c, h);
    forall n | c.genesis.number <= n <= h.number
      ensures n in d.canonical && d.canonical[n] == Ancestor(d, h.hash, n)
              <==> !(meet < n < Min(c.head.number, h.number))
    {
      ReorgIndexAt(c, h, n, meet);
    }
    if meet + 1 < Min(c.head.number, h.number) {
      ReorgIndexAt(c, h, meet + 1, meet);
    }
    assert c.head.number in d.canonical;
    assert h.number >= c.genesis.number by { AboveGenesis(d, h.hash); }
  }

  /** Two headers on a genesis, the first of them about to get a heavier rival. */
  function BeforeRival(g: Header, a: Header, b: Header): Chain {
    Chain(map[g.hash := g, a.hash := a, b.hash := b], map[g.hash := 0, a.hash := 1, b.hash := 2],
          map[0 := g.hash, 1 := a.hash, 2 := b.hash], [], b, 2, g)
  }

  const RIVALS := (Header(1, ZERO_HASH, 0, 0), Header(2, 1, 1, 1), Header(3, 2, 2, 1), Header(4, 1, 1, 5))

  lemma BeforeRivalLinked()
    ensures var c := BeforeRival(RIVALS.0, RIVALS.1, RIVALS.2); Inv(c) && Linked(c)
  {
    var c := BeforeRival(RIVALS.0, RIVALS.1, RIVALS.2);
    assert Rooted(c, 1) && Rooted(c, 2) && Rooted(c, 3);
    assert Tree(c);
    assert Ancestor(c, 3, 2) == 3;
    assert Ancestor(c, 3, 1) == Ancestor(c, 2, 1) == 2;
    assert Ancestor(c, 3, 0) == Ancestor(c, 2, 0) == Ancestor(c, 1, 0) == 1;
  }

  /** The rival becomes the head, with number 1, and number 2 still names the abandoned header. */
  lemma LowerHeadLeavesEntry()
    ensures var c, r := BeforeRival(RIVALS.0, RIVALS.1, RIVALS.2), RIVALS.3;
            && Inv(c) && Linked(c) && Admissible(c, r) && Verdict(c, r).Reorganised?
            && WriteHeader(c, r).head == r && WriteHeader(c, r).canonical == map[0 := 1, 1 := 4, 2 := 3]
  {
    hide Inv, Linked;
    BeforeRivalLinked();
  }

  /** Writing `h` keeps the index linked: it is no reorganisation, or a shallow one. */
  ghost predicate KeepsIndex(c: Chain, h: Header)
    requires Inv(c) && Admissible(c, h)
  {
    Verdict(c, h).Reorganised? ==>
      (WriteKeepsInv(c, h);
       WriteKeepsBelow(c, h);
       exists meet: nat {:trigger MeetAt(WriteHeader(c, h), c.head.hash, h.hash, meet)} ::
         MeetAt(WriteHeader(c, h), c.head.hash, h.hash, meet) && Shallow(c, h, meet))
  }

  lemma WriteKeepsLinked(c: Chain, h: Header)
    requires Inv(c) && Admissible(c, h) && Linked(c) && KeepsIndex(c, h)
    ensures Inv(WriteHeader(c, h)) && Linked(WriteHeader(c, h))
  {
    WriteKeepsInv(c, h);
    hide Linked, Admissible, MeetAt, Ancestor, Rooted;
    if Verdict(c, h).Reorganised? {
      WriteKeepsBelow(c, h);
      var meet: nat :| MeetAt(WriteHeader(c, h), c.head.hash, h.hash, meet) && Shallow(c, h, meet);
      ReorgLinkedIff(c, h, meet);
    } else {
      ExtendKeepsLinked(c, h);
    }
  }

  ghost predicate AllKeepIndex(c: Chain, hs: seq<Header>)
    requires Inv(c) && AllAdmissible(c, hs)
    decreases |hs|
  {
    hs == [] || (KeepsIndex(c, hs[0]) && (WriteKeepsInv(c, hs[0]); AllKeepIndex(WriteHeader(c, hs[0]), hs[1..])))
  }

  /** In every run of extensions, forks and shallow reorganisations the number index lists
      exactly the path from the genesis to the head. */
  lemma {:induction false} RunKeepsLinked(c: Chain, hs: seq<Header>)
    requires Inv(c) && AllAdmissible(c, hs) && AllKeepIndex(c, hs) && Linked(c)
    ensures Inv(RunHeaders(c, hs)) && Linked(RunHeaders(c, hs))
    decreases |hs|
  {
    hide Inv, Linked, Admissible, WriteHeader, KeepsIndex;
    if hs != [] {
      WriteKeepsLinked(c, hs[0]);
      RunKeepsLinked(WriteHeader(c, hs[0]), hs[1..]);
    }
  }

  // ---------- Walking down a branch ----------

  /** The ancestors of `h` with numbers from `hi - 1` down to `lo`. */
  ghost function Walk(c: Chain, h: Hash, lo: nat, hi: nat): seq<Header>
    requires Tree(c) && h in c.td && h in c.headers
    requires c.genesis.number <= lo <= hi <= c.headers[h].number
  {
    seq(hi - lo, i requires 0 <= i < hi - lo => c.headers[Ancestor(c, h, hi - 1 - i)])
  }

  lemma WalkAt(c: Chain, h: Hash, lo: nat, hi: nat, i: nat)
    requires Tree(c) && h in c.td && h in c.headers
    requires c.genesis.number <= lo <= hi <= c.headers[h].number
    requires i < hi - lo
    ensures Walk(c, h, lo, hi)[i].number == hi - 1 - i
    ensures Walk(c, h, lo, hi)[i].hash == Ancestor(c, h, hi - 1 - i)
  {
    var a := Ancestor(c, h, hi - 1 - i);
    assert Walk(c, h, lo, hi)[i] == c.headers[a];
    assert c.headers[a].hash == a;
  }

  lemma WalkOneMore(c: Chain, h: Hash, lo: nat, hi: nat)
    requires Tree(c) && h in c.td && h in c.headers
    requires c.genesis.number < lo <= hi <= c.headers[h].number
    ensures Walk(c, h, lo - 1, hi) == Walk(c, h, lo, hi) + [c.headers[Ancestor(c, h, lo - 1)]]
  {
  }

  /** The walk without its last header. */
  lemma WalkCut(c: Chain, h: Hash, lo: nat, hi: nat)
    requires Tree(c) && h in c.td && h in c.headers
    requires c.genesis.number <= lo < hi <= c.headers[h].number
    ensures var w := Walk(c, h, lo, hi); |w| > 0 && w[..|w| - 1] == Walk(c, h, lo + 1, hi)
  {
    WalkOneMore(c, h, lo + 1, hi);
  }

  /** Branches meet strictly below a header that the other branch does not contain. */
  lemma MeetBelowHead(c: Chain, a: Hash, b: Hash, meet: nat)
    requires Tree(c) && a in c.td && b in c.td && a in c.headers && b in c.headers
    requires MeetAt(c, a, b, meet) && c.genesis.number <= c.headers[a].number
    requires c.headers[a].number <= c.headers[b].number ==> Ancestor(c, b, c.headers[a].number) != a
    ensures c.genesis.number <= meet < c.headers[a].number
  {
    assert Ancestor(c, a, c.headers[a].number) == a;
  }

  lemma ParentRecorded(c: Chain, h: Hash)
    requires Tree(c) && h in c.td && h != c.genesis.hash
    ensures h in c.headers && c.headers[h].parentHash in c.td && c.headers[h].parentHash != ZERO_HASH
    ensures c.td[h] == c.td[c.headers[h].parentHash] + c.headers[h].difficulty
  {
    assert Rooted(c, h);
  }

  /** One step to the parent along the path from `h`. */
  lemma ParentOnPath(c: Chain, h: Hash, n: nat)
    requires Tree(c) && h in c.td && h in c.headers
    requires c.genesis.number < n <= c.headers[h].number
    ensures var a := Ancestor(c, h, n);
            && c.headers[a].hash == a
            && c.headers[a].parentHash in c.td && c.headers[a].parentHash in c.headers
            && c.headers[a].parentHash == Ancestor(c, h, n - 1)
  {
    var a := Ancestor(c, h, n);
    AncestorOfAncestor(c, h, n, n - 1);
    assert Rooted(c, a);
    AboveGenesis(c, c.headers[a].parentHash);
    assert Ancestor(c, c.headers[a].parentHash, n - 1) == c.headers[a].parentHash;
  }

  /** All branches end in the genesis. */
  lemma PathsEndInGenesis(c: Chain, h: Hash)
    requires Tree(c) && h in c.td && h in c.headers
    ensures c.genesis.number <= c.headers[h].number
    ensures Ancestor(c, h, c.genesis.number) == c.genesis.hash
  {
    AboveGenesis(c, h);
    AboveGenesis(c, Ancestor(c, h, c.genesis.number));
  }

  /** A header that triggers a reorganisation never descends from the head. */
  lemma ReorgLeavesHead(c: Chain, h: Header)
    requires Inv(c) && Admissible(c, h) && Verdict(c, h).Reorganised?
    ensures var r := Recorded(c, h);
            && Tree(r) && c.genesis.number <= c.head.number
            && (c.head.number <= h.number ==> Ancestor(r, h.hash, c.head.number) != c.head.hash)
  {
    RecordedTree(c, h);
    HeadAboveGenesis(c);
    NewHeadIsNew(c, h);
    WriteKeepsBelow(c, h);
    var r := Recorded(c, h);
    assert Rooted(r, h.hash) && Rooted(c, h.parentHash);
    if c.head.number < h.number {
      HeadIsLeaf(c, h.parentHash);
      AncestorAgrees(c, r, h.parentHash, c.head.number);
    }
  }
}

/** The blockchain object: database, caches and current head, changed in place. */
module BlockchainHeap {
  import opened Wrappers
  import opened ForkChoice

  datatype EventType = EventHead | EventFork | EventReorg

  datatype Event = Event(kind: EventType, oldChain: seq<Header>, newChain: seq<Header>, difficulty: Option<nat>)

  class Blockchain {
    const genesis: Header
    // database
    var headers: map<Hash, Header>
    var td: map<Hash, nat>
    var canonical: map<nat, Hash>
    var forks: seq<Hash>
    var headHash: Hash
    var headNumber: nat
    // caches: they may forget, they must not lie
    var headersCache: map<Hash, Header>
    var difficultyCache: map<Hash, nat>
    // head
    var currentHeader: Header
    var currentDifficulty: nat

    ghost function Value(): Chain
      reads this
    {
      Chain(headers, td, canonical, forks, currentHeader, currentDifficulty, genesis)
    }

    /** Cached reads agree with the store. */
    ghost predicate CachesAgree()
      reads this
    {
      && (forall h :: h in headersCache ==> h in headers && headersCache[h] == headers[h])
      && (forall h :: h in difficultyCache ==> h in td && difficultyCache[h] == td[h])
    }

    ghost predicate Valid()
      reads this
    {
      && Inv(Value()) && CachesAgree()
      && headHash == currentHeader.hash && headNumber == currentHeader.number
    }

    constructor (g: Header)
      requires g.hash != ZERO_HASH && g.parentHash == ZERO_HASH
      ensures Valid() && Value() == GenesisChain(g)
    {
      genesis := g;
      headers, td, canonical, forks := map[g.hash := g], map[g.hash := g.difficulty], map[g.number := g.hash], [];
      headHash, headNumber, headersCache, difficultyCache := g.hash, g.number, map[], map[];
      currentHeader, currentDifficulty := g, g.difficulty;
      new;
      GenesisInv(g);
    }

    /** An entry falls out of a cache. */
    method Evict(h: Hash)
      requires Valid()
      modifies this`headersCache, this`difficultyCache
      ensures Valid() && Value() == old(Value())
    {
      headersCache, difficultyCache := headersCache - {h}, difficultyCache - {h};
    }

    method ReadHeader(hash: Hash) returns (h: Option<Header>)
      requires CachesAgree()
      modifies this`headersCache
      ensures CachesAgree()
      ensures h == if hash in headers then Some(headers[hash]) else None
    {
      if hash in headersCache {
        return Some(headersCache[hash]);
      }
      if hash !in headers {
        return None;
      }
      headersCache := headersCache[hash := headers[hash]];
      h := Some(headers[hash]);
    }

    method ReadTotalDifficulty(hash: Hash) returns (d: Option<nat>)
      requires CachesAgree()
      modifies this`difficultyCache
      ensures CachesAgree()
      ensures d == if hash in td then Some(td[hash]) else None
    {
      if hash in difficultyCache {
        return Some(difficultyCache[hash]);
      }
      if hash !in td {
        return None;
      }
      difficultyCache := difficultyCache[hash := td[hash]];
      d := Some(td[hash]);
    }

    method WriteFork(h: Header)
      modifies this`forks
      ensures forks == AddFork(old(forks), h)
    {
      var newForks: seq<Hash> := [];
      for i := 0 to |forks|
        invariant newForks == DropFork(forks[..i], h.parentHash)
        invariant forks == old(forks)
      {
        assert forks[..i + 1][..i] == forks[..i];
        if forks[i] != h.parentHash {
          newForks := newForks + [forks[i]];
        }
      }
      assert forks[..|forks|] == forks;
      forks := newForks + [h.hash];
    }

    /** The two branches, walked down to the header they share. */
    method FindMeet(oldHead: Header, newHead: Header)
      returns (oldChain: seq<Header>, newChain: seq<Header>, ghost meet: nat)
      requires CachesAgree() && Tree(Value())
      requires oldHead.hash in td && oldHead.hash in headers && headers[oldHead.hash] == oldHead
      requires newHead.hash in td && newHead.hash in headers && headers[newHead.hash] == newHead
      modifies this`headersCache
      ensures CachesAgree()
      ensures MeetAt(Value(), oldHead.hash, newHead.hash, meet)
      ensures oldChain == Walk(Value(), oldHead.hash, meet, oldHead.number)
      ensures genesis.number <= Min(oldHead.number, newHead.number)
      ensures newChain == Walk(Value(), newHead.hash, Min(oldHead.number, newHead.number), newHead.number)
    {
      ghost var c := Value();
      PathsEndInGenesis(c, oldHead.hash);
      PathsEndInGenesis(c, newHead.hash);
      var o, n := oldHead, newHead;
      oldChain, newChain := [], [];
      while o.number > n.number
        invariant CachesAgree() && Value() == c
        invariant Min(oldHead.number, newHead.number) <= o.number <= oldHead.number
        invariant o == headers[Ancestor(c, oldHead.hash, o.number)]
        invariant oldChain == Walk(c, oldHead.hash, o.number, oldHead.number)
      {
        ParentOnPath(c, oldHead.hash, o.number);
        WalkOneMore(c, oldHead.hash, o.number, oldHead.number);
        var p := ReadHeader(o.parentHash);
        o := p.value;
        oldChain := oldChain + [o];
      }
      while n.number > o.number
        invariant CachesAgree() && Value() == c
        invariant Min(oldHead.number, newHead.number) <= n.number <= newHead.number
        invariant n == headers[Ancestor(c, newHead.hash, n.number)]
        invariant newChain == Walk(c, newHead.hash, n.number, newHead.number)
      {
        ParentOnPath(c, newHead.hash, n.number);
        WalkOneMore(c, newHead.hash, n.number, newHead.number);
        var p := ReadHeader(n.parentHash);
        n := p.value;
        newChain := newChain + [n];
      }
      oldChain, meet := MeetBelow(oldHead, newHead, o, n, oldChain);
    }

    /** Both branches one header at a time, until the hashes agree. */
    method MeetBelow(ghost oldHead: Header, ghost newHead: Header, o0: Header, n0: Header, chain: seq<Header>)
      returns (oldChain: seq<Header>, ghost meet: nat)
      requires CachesAgree() && Tree(Value())
      requires oldHead.hash in td && oldHead.hash in headers && headers[oldHead.hash] == oldHead
      requires newHead.hash in td && newHead.hash in headers && headers[newHead.hash] == newHead
      requires genesis.number <= o0.number == n0.number == Min(oldHead.number, newHead.number)
      requires o0 == headers[Ancestor(Value(), oldHead.hash, o0.number)]
      requires n0 == headers[Ancestor(Value(), newHead.hash, n0.number)]
      requires chain == Walk(Value(), oldHead.hash, o0.number, oldHead.number)
      modifies this`headersCache
      ensures CachesAgree()
      ensures MeetAt(Value(), oldHead.hash, newHead.hash, meet)
      ensures oldChain == Walk(Value(), oldHead.hash, meet, oldHead.number)
    {
      ghost var c := Value();
      PathsEndInGenesis(c, oldHead.hash);
      PathsEndInGenesis(c, newHead.hash);
      var o, n := o0, n0;
      oldChain := chain;
      while o.hash != n.hash
        invariant CachesAgree() && Value() == c
        invariant genesis.number <= o.number == n.number <= Min(oldHead.number, newHead.number)
        invariant o == headers[Ancestor(c, oldHead.hash, o.number)]
        invariant n == headers[Ancestor(c, newHead.hash, n.number)]
        invariant oldChain == Walk(c, oldHead.hash, o.number, oldHead.number)
        invariant forall m {:trigger Ancestor(c, oldHead.hash, m)} ::
                    o.number < m <= Min(oldHead.number, newHead.number) ==>
                      Ancestor(c, oldHead.hash, m) != Ancestor(c, newHead.hash, m)
        decreases o.number
      {
        assert o.number > genesis.number;
        ParentOnPath(c, oldHead.hash, o.number);
        ParentOnPath(c, newHead.hash, n.number);
        WalkOneMore(c, oldHead.hash, o.number, oldHead.number);
        var p := ReadHeader(o.parentHash);
        var q := ReadHeader(n.parentHash);
        o, n := p.value, q.value;
        oldChain := oldChain + [o];
      }
      meet := o.number;
    }

    /** Makes `h` the head. The difficulty of an unknown parent is an error. */
    method AdvanceHead(h: Header) returns (newTD: Option<nat>)
      requires CachesAgree()
      requires h.hash in td ==>
                 td[h.hash] == h.difficulty + if h.parentHash == ZERO_HASH then 0 else
                                              if h.parentHash in td then td[h.parentHash] else td[h.hash]
      modifies this
      ensures CachesAgree() && headers == old(headers) && forks == old(forks)
      ensures headHash == h.hash && headNumber == h.number && canonical == old(canonical)[h.number := h.hash]
      ensures newTD.Some? <==> h.parentHash == ZERO_HASH || h.parentHash in old(td)
      ensures newTD.Some? ==>
                && newTD.value == h.difficulty + (if h.parentHash == ZERO_HASH then 0 else old(td)[h.parentHash])
                && td == old(td)[h.hash := newTD.value] && currentHeader == h && currentDifficulty == newTD.value
      ensures newTD.None? ==>
                td == old(td) && currentHeader == old(currentHeader) && currentDifficulty == old(currentDifficulty)
    {
      headHash, headNumber := h.hash, h.number;
      canonical := canonical[h.number := h.hash];
      var parentTD := 0;
      if h.parentHash != ZERO_HASH {
        var d := ReadTotalDifficulty(h.parentHash);
        if d.None? {
          return None;
        }
        parentTD := d.value;
      }
      td := td[h.hash := parentTD + h.difficulty];
      currentHeader, currentDifficulty := h, parentTD + h.difficulty;
      newTD := Some(parentTD + h.difficulty);
    }

    method Renumber(newChain: seq<Header>, ghost c: Chain, ghost oldHead: Header, ghost newHead: Header)
      requires Tree(c) && canonical == c.canonical
      requires newHead.hash in c.td && newHead.hash in c.headers && c.headers[newHead.hash] == newHead
      requires c.genesis.number <= Min(oldHead.number, newHead.number)
      requires newChain == Walk(c, newHead.hash, Min(oldHead.number, newHead.number), newHead.number)
      modifies this`canonical
      ensures canonical[newHead.number := newHead.hash] == Renumbered(c, oldHead, newHead)
    {
      for i := 0 to |newChain|
        invariant canonical == old(canonical) +
                    map n | newHead.number - i <= n < newHead.number :: Ancestor(c, newHead.hash, n)
      {
        WalkAt(c, newHead.hash, Min(oldHead.number, newHead.number), newHead.number, i);
        canonical := canonical[newChain[i].number := newChain[i].hash];
      }
    }

    /** Switches to a heavier branch that does not contain the old head. The event lists the
        old branch down to, and without, the header the branches share; cutting that header
        off the old branch is always possible. */
    method HandleReorg(newHead: Header) returns (e: Event, ghost meet: nat)
      requires CachesAgree() && Tree(Value())
      requires currentHeader.hash in td && currentHeader.hash in headers && headers[currentHeader.hash] == currentHeader
      requires newHead.hash in td && newHead.hash in headers && headers[newHead.hash] == newHead
      requires newHead.hash != genesis.hash && genesis.number <= currentHeader.number
      requires currentHeader.number <= newHead.number ==>
                 Ancestor(Value(), newHead.hash, currentHeader.number) != currentHeader.hash
      modifies this
      ensures CachesAgree() && headHash == newHead.hash && headNumber == newHead.number
      ensures var c, oldHead := old(Value()), old(currentHeader);
              && Value() == c.(canonical := Renumbered(c, oldHead, newHead), forks := AddFork(c.forks, oldHead),
                               head := newHead, headTD := c.td[newHead.hash])
              && MeetAt(c, oldHead.hash, newHead.hash, meet) && meet < oldHead.number
              && e == Event(EventReorg, Walk(c, oldHead.hash, meet + 1, oldHead.number) + [oldHead],
                            [newHead] + Walk(c, newHead.hash, Min(oldHead.number, newHead.number), newHead.number),
                            Some(c.td[newHead.hash]))
    {
      hide Tree, Renumbered, Walk, Ancestor, MeetAt, Rooted;
      ghost var c := Value();
      var oldHead := currentHeader;
      ParentRecorded(c, newHead.hash);
      var oldChain, newChain;
      oldChain, newChain, meet := FindMeet(oldHead, newHead);
      MeetBelowHead(c, oldHead.hash, newHead.hash, meet);
      WalkCut(c, oldHead.hash, meet, oldHead.number);
      var dropped := oldChain[..|oldChain| - 1] + [oldHead];
      var added := [newHead] + newChain;
      WriteFork(oldHead);
      Renumber(newChain, c, oldHead, newHead);
      var d := AdvanceHead(newHead);
      assert td == c.td;
      e := Event(EventReorg, dropped, added, d);
    }

    // ---------- Database writes ----------

    method StoreHeader(h: Header)
      requires CachesAgree()
      requires h.hash in headers ==> headers[h.hash] == h
      modifies this`headers
      ensures CachesAgree() && headers == old(headers)[h.hash := h]
    {
      headers := headers[h.hash := h];
    }

    method StoreTotalDifficulty(hash: Hash, d: nat)
      requires CachesAgree()
      requires hash in td ==> td[hash] == d
      modifies this`td
      ensures CachesAgree() && td == old(td)[hash := d]
    {
      td := td[hash := d];
    }

    method CacheHeader(h: Header)
      requires CachesAgree() && h.hash in headers && headers[h.hash] == h
      modifies this`headersCache
      ensures CachesAgree()
    {
      headersCache := headersCache[h.hash := h];
    }

    method SetHead(h: Header, d: nat)
      requires CachesAgree()
      modifies this`headHash, this`headNumber, this`canonical, this`currentHeader, this`currentDifficulty
      ensures CachesAgree() && headHash == h.hash && headNumber == h.number
      ensures canonical == old(canonical)[h.number := h.hash] && currentHeader == h && currentDifficulty == d
    {
      headHash, headNumber := h.hash, h.number;
      canonical := canonical[h.number := h.hash];
      currentHeader, currentDifficulty := h, d;
    }

    // ---------- Header writes ----------

    lemma HeadRecorded(c: Chain)
      requires Inv(c)
      ensures c.head.hash in c.td && c.head.hash in c.headers && c.headers[c.head.hash] == c.head
      ensures c.headTD == c.td[c.head.hash]
    {
    }

    /** Extends the head. */
    method WriteCanonicalHeader(h: Header) returns (e: Event)
      requires Valid() && Admissible(Value(), h) && h.parentHash == currentHeader.hash
      modifies this
      ensures Valid() && Value() == WriteHeader(old(Value()), h)
      ensures e == Event(EventHead, [], [h], Some(currentDifficulty))
    {
      ghost var c := Value();
      NewHeadIsNew(c, h);
      WriteKeepsInv(c, h);
      HeadRecorded(c);
      hide Inv, CachesAgree;
      var parentTD := ReadTotalDifficulty(h.parentHash);
      var newTD := parentTD.value + h.difficulty;
      StoreHeader(h);
      StoreTotalDifficulty(h.hash, newTD);
      SetHead(h, newTD);
      e := Event(EventHead, [], [h], Some(newTD));
    }

    /** Writes a header: it extends the head, becomes a fork, or reorganises the chain; a
        header whose parent is unknown is stored and refused. */
    method WriteHeaderImpl(h: Header) returns (e: Option<Event>)
      requires Valid() && Admissible(Value(), h)
      modifies this
      ensures Valid() && Value() == WriteHeader(old(Value()), h)
      ensures e == match Verdict(old(Value()), h)
                   case ParentUnknown => None
                   case Extended => Some(Event(EventHead, [], [h], Some(currentDifficulty)))
                   case Forked => Some(Event(EventFork, [h], [], None))
                   case Reorganised => e
      ensures Verdict(old(Value()), h).Reorganised? ==> e.Some? && ReorgEvent(old(Value()), h, e.value)
    {
      if h.parentHash == currentHeader.hash {
        var head := WriteCanonicalHeader(h);
        return Some(head);
      }
      hide Valid, Admissible;
      e := WriteBranch(h);
    }

    /** The event of a reorganisation: the old branch down to the fork point, and the new
        head with the headers of its branch from the lower head on. */
    static ghost predicate ReorgEvent(c: Chain, h: Header, e: Event)
      requires Inv(c) && Admissible(c, h) && Verdict(c, h).Reorganised?
    {
      RecordedTree(c, h);
      HeadAboveGenesis(c);
      WriteKeepsBelow(c, h);
      var r := Recorded(c, h);
      && e.kind == EventReorg && e.difficulty == Some(r.td[h.hash])
      && exists meet: nat {:trigger MeetAt(r, c.head.hash, h.hash, meet)} ::
           && MeetAt(r, c.head.hash, h.hash, meet) && meet < c.head.number
           && e.oldChain == Walk(r, c.head.hash, meet + 1, c.head.number) + [c.head]
           && e.newChain == [h] + Walk(r, h.hash, Min(c.head.number, h.number), h.number)
    }

    method WriteBranch(h: Header) returns (e: Option<Event>)
      requires Valid() && Admissible(Value(), h) && h.parentHash != currentHeader.hash
      modifies this
      ensures Valid() && Value() == WriteHeader(old(Value()), h)
      ensures e.None? <==> Verdict(old(Value()), h).ParentUnknown?
      ensures Verdict(old(Value()), h).Forked? ==> e == Some(Event(EventFork, [h], [], None))
      ensures Verdict(old(Value()), h).Reorganised? ==> ReorgEvent(old(Value()), h, e.value)
    {
      ghost var c := Value();
      WriteKeepsInv(c, h);
      HeadRecorded(c);
      var currentTD, weight := Record(h);
      if weight.None? {
        return None;
      }
      if weight.value > currentTD {
        hide Inv, CachesAgree, ReorgEvent, WriteHeader, Admissible;
        var reorg := Reorganise(h, c);
        e := Some(reorg);
      } else {
        hide Inv, CachesAgree, ReorgEvent, AddFork, Admissible;
        WriteFork(h);
        e := Some(Event(EventFork, [h], [], None));
      }
    }

    /** Stores the header and, if its parent is known, its total difficulty. */
    method Record(h: Header) returns (currentTD: nat, weight: Option<nat>)
      requires Valid() && Admissible(Value(), h)
      modifies this
      ensures currentTD == currentDifficulty
      ensures CachesAgree() && headHash == old(headHash) && headNumber == old(headNumber)
      ensures weight.None? <==> h.parentHash !in old(td)
      ensures weight.None? ==> Value() == Stored(old(Value()), h)
      ensures weight.Some? ==>
                Value() == Recorded(old(Value()), h) && weight.value == old(td)[h.parentHash] + h.difficulty
    {
      ghost var c := Value();
      HeadRecorded(c);
      hide Inv, CachesAgree;
      StoreHeader(h);
      var readTD := ReadTotalDifficulty(currentHeader.hash);
      currentTD := readTD.value;
      var parentTD := ReadTotalDifficulty(h.parentHash);
      if parentTD.None? {
        weight := None;
        return;
      }
      RecordedValue(c, h);
      StoreTotalDifficulty(h.hash, parentTD.value + h.difficulty);
      CacheHeader(h);
      weight := Some(parentTD.value + h.difficulty);
    }

    method Reorganise(h: Header, ghost c: Chain) returns (e: Event)
      requires Inv(c) && Admissible(c, h) && Verdict(c, h).Reorganised?
      requires CachesAgree() && Value() == Recorded(c, h)
      modifies this
      ensures CachesAgree() && headHash == h.hash && headNumber == h.number
      ensures Value() == WriteHeader(c, h) && ReorgEvent(c, h, e)
    {
      ReorgLeavesHead(c, h);
      NewHeadIsNew(c, h);
      HeadRecorded(c);
      hide CachesAgree, Renumbered, Walk, MeetAt;
      ghost var meet;
      e, meet := HandleReorg(h);
    }

    lemma RecordedValue(c: Chain, h: Header)
      requires Inv(c) && Admissible(c, h) && h.parentHash in c.td
      ensures h.hash in c.td ==> c.td[h.hash] == c.td[h.parentHash] + h.difficulty
    {
      if h.hash in c.td {
        RecordedAgain(c, h);
      }
    }
  }
}
